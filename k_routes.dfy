/**
 * The cache key, the diskcache-backed `scrape_search_cached` and the
 * `/scrape/{query}`, `/details/{link:path}` and `/search/{query}` handlers
 * of backend/k.py. A raised `HTTPException` becomes a reply with its status
 * and `detail`.
 */
module KRoutes {
  import opened Wrappers
  import Text
  import Seqs
  import opened Dom
  import opened Browser
  import Caches
  import ServerExtract
  import opened KSanitize
  import opened KExtract
  import opened KBrowser

  const QueryRequired := "Query parameter is required"
  const LinkRequired := "Link parameter is required"
  const ProductsFailed := "Failed to fetch products"
  const DetailsFailed := "Failed to fetch product details"
  const SearchFailed := "Failed to search products"
  const ExpireSeconds: nat := 3600

  datatype Body =
    | Products(items: seq<ServerExtract.Product>)
    | ErrorObject(error: string)
    | ProductDetail(product: KExtract.Detail, imageUrls: seq<string>)
    | SearchResults(found: seq<SearchItem>)
    | HttpError(detail: string)

  datatype Reply = Reply(status: int, body: Body)

  /** `get_products` over `scrape_smartprix` with the card reader `read`:
      the 400 raised for a blank query is caught by the generic handler and
      reported as 500; a listing error dict is a 200. */
  function GetProducts(query: string, alnum: char -> bool, web: string -> Fetched<seq<Card>>,
                       read: Card -> Option<ServerExtract.Product>): Reply {
    if IsBlank(query) then Reply(500, HttpError(ProductsFailed))
    else match ScrapeSmartprixOf(query, alnum, web, read)
      case Listed(ps) => Reply(200, Products(ps))
      case ListingFailed(e) => Reply(200, ErrorObject(e))
  }

  /** For either reader, a blank query is answered with 500, never 400,
      whatever the upstream does; every other query with 200. */
  lemma GetProductsStatus(query: string, alnum: char -> bool, web: string -> Fetched<seq<Card>>,
                          web': string -> Fetched<seq<Card>>, read: Card -> Option<ServerExtract.Product>)
    ensures GetProducts(query, alnum, web, read).status != 400
    ensures GetProducts(query, alnum, web, read).status == 500 <==> IsBlank(query)
    ensures IsBlank(query) ==> GetProducts(query, alnum, web, read) == GetProducts(query, alnum, web', read)
    ensures !IsBlank(query) ==> GetProducts(query, alnum, web, read).status == 200
  {
  }

  /** As written, a page of cards whose `h2` carries no `href` is answered
      with 200 and an empty list. */
  lemma GetProductsAsWrittenEmpty(query: string, alnum: char -> bool, web: string -> Fetched<seq<Card>>)
    requires !IsBlank(query)
    requires web(SanitizeQuery(query, alnum)).Response? && web(SanitizeQuery(query, alnum)).status == 200
    requires var cards := web(SanitizeQuery(query, alnum)).page;
      forall i :: 0 <= i < |cards| ==> cards[i].headings != [] && "href" !in cards[i].headings[0].attrs
    ensures GetProducts(query, alnum, web, ReadCardAsWritten) == Reply(200, Products([]))
  {
    ScrapeSmartprixAsWrittenEmpty(query, alnum, web);
  }

  /** Where the text after the last `/` of `s` starts (0 when there is none). */
  function SegmentStart(s: string): (k: nat)
    ensures k <= |s|
    ensures k > 0 ==> s[k - 1] == '/'
    ensures forall i :: k <= i < |s| ==> s[i] != '/'
    decreases |s|
  {
    if s == [] then 0
    else if s[|s| - 1] == '/' then |s|
    else SegmentStart(s[..|s| - 1])
  }

  /** `link.split('/')[-1]`: the text after the last `/`, or all of `link`. */
  function LastSegment(link: string): string {
    link[SegmentStart(link)..]
  }

  /** The last segment is a suffix of the link without `/`, and it is the
      whole link or preceded by a `/`. */
  lemma LastSegmentMeaning(link: string)
    ensures var r := LastSegment(link);
      |r| <= |link| && r == link[|link| - |r|..] &&
      (forall i :: 0 <= i < |r| ==> r[i] != '/') &&
      (|r| < |link| ==> link[|link| - |r| - 1] == '/')
  {
    var k := SegmentStart(link);
    var r := LastSegment(link);
    forall i | 0 <= i < |r| ensures r[i] != '/' {
      assert r[i] == link[k + i];
    }
  }

  function SpaceToPlus(c: char): char {
    if c == ' ' then '+' else c
  }

  /** `search_query.replace(' ', '+')` for the last segment of the raw link. */
  function AmazonTerm(link: string): string {
    Seqs.MapSeq(LastSegment(link), SpaceToPlus)
  }

  /** The search term is the last segment with every space turned into `+`. */
  lemma AmazonTermMeaning(link: string)
    ensures |AmazonTerm(link)| == |LastSegment(link)|
    ensures forall i :: 0 <= i < |AmazonTerm(link)| ==> AmazonTerm(link)[i] == SpaceToPlus(LastSegment(link)[i])
    ensures forall i :: 0 <= i < |AmazonTerm(link)| ==> AmazonTerm(link)[i] != ' ' && AmazonTerm(link)[i] != '/'
  {
    var seg := LastSegment(link);
    var term := AmazonTerm(link);
    LastSegmentMeaning(link);
    Seqs.MapSeqAt(seg, SpaceToPlus);
    forall i | 0 <= i < |term| ensures term[i] != ' ' && term[i] != '/' {
      assert term[i] == SpaceToPlus(seg[i]) && seg[i] != '/';
    }
  }

  /** `get_details`. `amazon` answers `get_amazon_images` for a search
      term; it never raises, as that function catches everything. */
  function GetDetails(link: string, alnum: char -> bool, web: string -> Fetched<DetailPage>,
                      amazon: string -> seq<string>): Reply {
    if IsBlank(link) then Reply(400, HttpError(LinkRequired))
    else match ScrapeProductDetailsOf(link, alnum, web)
      case DetailFailed(e) => Reply(404, HttpError(e))
      case Raises => Reply(500, HttpError(DetailsFailed))
      case Found(d) => Reply(200, ProductDetail(d, amazon(AmazonTerm(link))))
  }

  /** The 400 for a blank link comes before any fetch and, like the 404,
      passes through unchanged; an escaping exception is 500; a detail comes
      with the images found for the last segment of the raw link. */
  lemma GetDetailsStatus(link: string, alnum: char -> bool, web: string -> Fetched<DetailPage>,
                         web': string -> Fetched<DetailPage>, amazon: string -> seq<string>)
    ensures IsBlank(link) ==>
      GetDetails(link, alnum, web, amazon) == GetDetails(link, alnum, web', amazon) == Reply(400, HttpError(LinkRequired))
    ensures !IsBlank(link) ==>
      var fetched := web(SanitizePath(link, alnum));
      var r := GetDetails(link, alnum, web, amazon);
      (fetched.Raised? ==> r == Reply(404, HttpError(KExtract.DetailsError))) &&
      (fetched.Response? && fetched.status != 200 ==> r == Reply(404, HttpError(FetchPageError))) &&
      (fetched.Response? && fetched.status == 200 && fetched.page.storeStripRaises ==>
         r == Reply(500, HttpError(DetailsFailed))) &&
      (r.status == 200 <==> fetched.Response? && fetched.status == 200 && !fetched.page.storeStripRaises) &&
      (r.status == 200 ==> r.body.imageUrls == amazon(AmazonTerm(link)))
  {
    if !IsBlank(link) {
      ScrapeProductDetailsShape(link, alnum, web);
    }
  }

  /** `str(isCompare)` for the parsed boolean. */
  function FlagText(isCompare: bool): string {
    if isCompare then "True" else "False"
  }

  /** The string `cache_key` hashes: `f"{query.lower()}|compare={isCompare}"`. */
  function CacheKey(query: string, isCompare: bool): string {
    Text.AsciiLower(query) + "|compare=" + FlagText(isCompare)
  }

  lemma CacheKeyIgnoresCase(q1: string, q2: string, isCompare: bool)
    requires Text.AsciiLower(q1) == Text.AsciiLower(q2)
    ensures CacheKey(q1, isCompare) == CacheKey(q2, isCompare)
  {
  }

  /** The fifth character from the end of a key tells the two flags apart. */
  lemma CacheKeyFlagMark(q: string, isCompare: bool)
    ensures |CacheKey(q, isCompare)| >= 5
    ensures CacheKey(q, isCompare)[|CacheKey(q, isCompare)| - 5] == if isCompare then '=' else 'F'
  {
    var t := "|compare=" + FlagText(isCompare);
    assert CacheKey(q, isCompare) == Text.AsciiLower(q) + t;
    assert CacheKey(q, isCompare)[|CacheKey(q, isCompare)| - 5] == t[|t| - 5];
  }

  /** Two searches share a key exactly when their lower-cased queries and
      their flags agree. */
  lemma CacheKeyInjective(q1: string, c1: bool, q2: string, c2: bool)
    ensures CacheKey(q1, c1) == CacheKey(q2, c2) <==> Text.AsciiLower(q1) == Text.AsciiLower(q2) && c1 == c2
  {
    var l1, l2 := Text.AsciiLower(q1), Text.AsciiLower(q2);
    var k1, k2 := CacheKey(q1, c1), CacheKey(q2, c2);
    assert k1 == l1 + ("|compare=" + FlagText(c1)) && k2 == l2 + ("|compare=" + FlagText(c2));
    CacheKeyFlagMark(q1, c1);
    CacheKeyFlagMark(q2, c2);
    if k1 == k2 {
      assert c1 == c2;
      assert l1 == k1[..|l1|] && l2 == k2[..|l2|];
    }
  }

  /** The reply of `search` for what the scrape gave: an exception is 500. */
  function SearchAnswer(o: Outcome<seq<SearchItem>>): Reply {
    match o
    case Returned(v) => Reply(200, SearchResults(v))
    case Threw => Reply(500, HttpError(SearchFailed))
  }

  /** `scrape_search_cached(query, isCompare)`. `key in cache` is read at
      `tIn`, `cache[key]` at `tGet` and, after a scrape, `cache.set` runs at
      `tSet` (all in seconds). A live entry is returned as stored, unless it
      has expired by the time `cache[key]` runs, which raises `KeyError`;
      otherwise `scrape_search` runs once and its result, `[]` included, is
      stored for an hour from `tSet`. An exception from the scrape leaves
      the cache as it was. */
  method ScrapeSearchCached(cache: Caches.DiskCache<seq<SearchItem>>, query: string, isCompare: bool,
                            alnum: char -> bool, tIn: nat, tGet: nat, tSet: nat, w: World)
    returns (r: Outcome<seq<SearchItem>>, ghost scraped: bool)
    requires tIn <= tGet && tIn <= tSet
    modifies cache
    ensures var key := CacheKey(query, isCompare);
      match Caches.DiskFind(old(cache.entries), key, tIn)
      case Some(_) =>
        !scraped && cache.entries == old(cache.entries) &&
        r == (match Caches.DiskFind(old(cache.entries), key, tGet)
              case Some(v) => Returned(v)
              case None => Threw)
      case None =>
        scraped && r == ScrapeSearchOf(query, isCompare, alnum, w) &&
        cache.entries == if r.Returned? then Caches.Put(old(cache.entries), key, r.value, tSet, ExpireSeconds)
                         else old(cache.entries)
  {
    var key := CacheKey(query, isCompare);
    var hit := cache.Contains(key, tIn);
    if hit {
      var stored := cache.Lookup(key, tGet);
      r := if stored.Some? then Returned(stored.value) else Threw;
      scraped := false;
      return;
    }
    scraped := true;
    var data, driver := ScrapeSearch(query, isCompare, alnum, w);
    if data.Threw? {
      r := Threw;
      return;
    }
    cache.Set(key, data.value, tSet, ExpireSeconds);
    r := data;
  }

  /** `search(query, isCompare)`: a blank query is refused before the cache
      is read, and like any failure, the `KeyError` of an entry that expires
      between the two reads included, surfaces as 500. */
  method Search(cache: Caches.DiskCache<seq<SearchItem>>, query: string, isCompare: bool,
                alnum: char -> bool, tIn: nat, tGet: nat, tSet: nat, w: World)
    returns (resp: Reply, ghost scraped: bool)
    requires tIn <= tGet && tIn <= tSet
    modifies cache
    ensures IsBlank(query) ==>
      resp == Reply(500, HttpError(SearchFailed)) && !scraped && cache.entries == old(cache.entries)
    ensures !IsBlank(query) ==>
      var key := CacheKey(query, isCompare);
      match Caches.DiskFind(old(cache.entries), key, tIn)
      case Some(_) =>
        !scraped && cache.entries == old(cache.entries) &&
        resp == (match Caches.DiskFind(old(cache.entries), key, tGet)
                 case Some(v) => Reply(200, SearchResults(v))
                 case None => Reply(500, HttpError(SearchFailed)))
      case None =>
        scraped && resp == SearchAnswer(ScrapeSearchOf(query, isCompare, alnum, w)) &&
        match ScrapeSearchOf(query, isCompare, alnum, w)
        case Returned(v) => cache.entries == Caches.Put(old(cache.entries), key, v, tSet, ExpireSeconds)
        case Threw => cache.entries == old(cache.entries)
  {
    if IsBlank(query) {
      resp := Reply(500, HttpError(SearchFailed));
      scraped := false;
      return;
    }
    var r;
    r, scraped := ScrapeSearchCached(cache, query, isCompare, alnum, tIn, tGet, tSet, w);
    resp := SearchAnswer(r);
  }

  /** The same search twice. The first arrives at `t1` on a cold key and
      stores its result at `d1`; the second checks the key at `t2` and reads
      it at `g2`. It scrapes again exactly when the hour counted from `d1`
      has passed at `t2`; before that it repeats the first reply if the
      entry is still live at `g2`, and fails with 500 if the entry expired
      between the two reads. */
  method RepeatedSearch(cache: Caches.DiskCache<seq<SearchItem>>, query: string, isCompare: bool,
                        alnum: char -> bool, t1: nat, d1: nat, t2: nat, g2: nat, d2: nat, w1: World, w2: World)
    returns (first: Reply, second: Reply, ghost scraped1: bool, ghost scraped2: bool)
    requires !IsBlank(query)
    requires Caches.DiskFind(cache.entries, CacheKey(query, isCompare), t1).None?
    requires ScrapeSearchOf(query, isCompare, alnum, w1).Returned?
    requires t1 <= d1 <= t2 <= g2 && t2 <= d2
    modifies cache
    ensures scraped1 && first == Reply(200, SearchResults(ScrapeSearchOf(query, isCompare, alnum, w1).value))
    ensures scraped2 <==> t2 >= d1 + ExpireSeconds
    ensures g2 < d1 + ExpireSeconds ==> second == first
    ensures t2 < d1 + ExpireSeconds <= g2 ==> second == Reply(500, HttpError(SearchFailed))
    ensures scraped2 ==> second == SearchAnswer(ScrapeSearchOf(query, isCompare, alnum, w2))
  {
    var key := CacheKey(query, isCompare);
    var v := ScrapeSearchOf(query, isCompare, alnum, w1).value;
    first, scraped1 := Search(cache, query, isCompare, alnum, t1, t1, d1, w1);
    Caches.DiskPutFind(old(cache.entries), key, v, d1, ExpireSeconds, key, t2);
    Caches.DiskPutFind(old(cache.entries), key, v, d1, ExpireSeconds, key, g2);
    second, scraped2 := Search(cache, query, isCompare, alnum, t2, g2, d2, w2);
  }
}
