/**
 * The `/scrape/:query`, `/details/:catId/:id` and `/search/:query` handlers
 * of backend-js/server.js, with the module-level NodeCache behind `/search`.
 */
module ServerRoutes {
  import opened Wrappers
  import Text
  import opened Dom
  import opened Browser
  import Caches
  import opened ServerSanitize
  import opened ServerExtract
  import opened ServerBrowser

  const QueryRequired := "Query parameter is required"
  const ParametersRequired := "Parameters are required"
  const SearchFailed := "Failed to search products"
  const CacheTtlSeconds: nat := 3600

  /** A JSON body: listing items, a product detail, search items or `{ error }`. */
  datatype Body =
    | Products(items: seq<Product>)
    | ProductDetail(detail: Detail)
    | SearchResults(found: seq<SearchItem>)
    | ErrorBody(error: string)

  datatype Reply = Reply(status: int, body: Body)

  /** `GET /scrape/:query`: the listing, or the scraper's error object, both with 200. */
  function ScrapeRoute(query: string, web: string -> Fetched<seq<Card>>): Reply {
    if IsBlank(query) then Reply(400, ErrorBody(QueryRequired))
    else match ScrapeSmartprixOf(query, web)
      case Listed(ps) => Reply(200, Products(ps))
      case ListingFailed(e) => Reply(200, ErrorBody(e))
  }

  /** A blank query is refused with 400 whatever the upstream would answer;
      any other query is answered with 200, an upstream failure included,
      and at most ten items. */
  lemma ScrapeRouteStatus(query: string, web: string -> Fetched<seq<Card>>, web': string -> Fetched<seq<Card>>)
    ensures IsBlank(query) ==> ScrapeRoute(query, web) == ScrapeRoute(query, web') == Reply(400, ErrorBody(QueryRequired))
    ensures !IsBlank(query) ==> ScrapeRoute(query, web).status == 200
    ensures !IsBlank(query) && ScrapeRoute(query, web).body.Products? ==>
      |ScrapeRoute(query, web).body.items| <= ListingCap
    ensures ScrapeRoute(query, web).body.ErrorBody? && !IsBlank(query) ==>
      ScrapeRoute(query, web).body.error == ListingError
  {
    ScrapeSmartprixOutcome(query, web);
  }

  /** An upstream page with no matching card gives `200 []`, not an error. */
  lemma ScrapeRouteNoCards(query: string, web: string -> Fetched<seq<Card>>, status: nat)
    requires !IsBlank(query)
    requires 200 <= status < 300
    requires web(SanitizeQuery(query)) == Fetched.Response(status, [])
    ensures ScrapeRoute(query, web) == Reply(200, Products([]))
  {
    ListingShape([]);
  }

  /** `GET /details/:catId/:id`. */
  function DetailsRoute(catId: string, id: string, web: string -> Fetched<DetailPage>): Reply {
    if IsBlank(catId) || IsBlank(id) then Reply(400, ErrorBody(ParametersRequired))
    else match ScrapeProductDetailsOf(catId + "/" + id, web)
      case DetailFailed(e) => Reply(404, ErrorBody(e))
      case Found(d) => Reply(200, ProductDetail(d))
  }

  /** A blank segment gives 400 before anything is fetched; otherwise the
      page for the sanitized `catId/id` decides between 404 with the
      scraper's error and 200 with the detail. */
  lemma DetailsRouteStatus(catId: string, id: string, web: string -> Fetched<DetailPage>, web': string -> Fetched<DetailPage>)
    ensures IsBlank(catId) || IsBlank(id) ==>
      DetailsRoute(catId, id, web) == DetailsRoute(catId, id, web') == Reply(400, ErrorBody(ParametersRequired))
    ensures !IsBlank(catId) && !IsBlank(id) ==>
      var fetched := web(SanitizePath(catId + "/" + id));
      (DetailsRoute(catId, id, web).status == 404 <==> fetched.Raised? || !IsSuccess(fetched.status)) &&
      (DetailsRoute(catId, id, web).status == 404 ==> DetailsRoute(catId, id, web).body == ErrorBody(DetailsError)) &&
      (DetailsRoute(catId, id, web).status != 404 ==> DetailsRoute(catId, id, web).status == 200)
  {
    if !IsBlank(catId) && !IsBlank(id) {
      ScrapeProductDetailsShape(catId + "/" + id, web);
    }
  }

  /** An empty item segment is refused: `GET /details/phones/` gives
      `400 { error: 'Parameters are required' }`. */
  lemma DetailsRouteEmptyId(web: string -> Fetched<DetailPage>)
    ensures DetailsRoute("phones", "", web) == Reply(400, ErrorBody(ParametersRequired))
  {
  }

  /** `isCompare || false` for the raw query-string value. */
  function FlagText(isCompare: Option<string>): string {
    match isCompare
    case None => "false"
    case Some(s) => if s == "" then "false" else s
  }

  /** `` `${query.toLowerCase()}|compare=${isCompare || false}` `` */
  function CacheKey(query: string, isCompare: Option<string>): string {
    Text.AsciiLower(query) + "|compare=" + FlagText(isCompare)
  }

  /** Queries that differ only in the case of ASCII letters share an entry. */
  lemma CacheKeyIgnoresCase(q1: string, q2: string, isCompare: Option<string>)
    requires Text.AsciiLower(q1) == Text.AsciiLower(q2)
    ensures CacheKey(q1, isCompare) == CacheKey(q2, isCompare)
  {
  }

  /** The fifth character from the end of a key tells the two flag texts apart. */
  lemma CacheKeyFlagMark(q: string, f: Option<string>)
    requires FlagText(f) == "true" || FlagText(f) == "false"
    ensures |CacheKey(q, f)| >= 5
    ensures CacheKey(q, f)[|CacheKey(q, f)| - 5] == if FlagText(f) == "true" then '=' else 'f'
  {
    var t := "|compare=" + FlagText(f);
    assert CacheKey(q, f) == Text.AsciiLower(q) + t;
    assert CacheKey(q, f)[|CacheKey(q, f)| - 5] == t[|t| - 5];
  }

  /** With the flag absent, "true" or "false", two requests share a key
      exactly when their lower-cased queries and their flag texts agree. */
  lemma CacheKeyInjective(q1: string, f1: Option<string>, q2: string, f2: Option<string>)
    requires FlagText(f1) == "true" || FlagText(f1) == "false"
    requires FlagText(f2) == "true" || FlagText(f2) == "false"
    ensures CacheKey(q1, f1) == CacheKey(q2, f2) <==>
      Text.AsciiLower(q1) == Text.AsciiLower(q2) && FlagText(f1) == FlagText(f2)
  {
    var l1, l2 := Text.AsciiLower(q1), Text.AsciiLower(q2);
    var k1, k2 := CacheKey(q1, f1), CacheKey(q2, f2);
    assert k1 == l1 + ("|compare=" + FlagText(f1)) && k2 == l2 + ("|compare=" + FlagText(f2));
    CacheKeyFlagMark(q1, f1);
    CacheKeyFlagMark(q2, f2);
    if k1 == k2 {
      assert FlagText(f1) == FlagText(f2);
      assert l1 == k1[..|l1|] && l2 == k2[..|l2|];
    }
  }

  /** Any other flag value can make two different requests share an entry. */
  lemma CacheKeyCollision()
    ensures CacheKey("x|compare=true", Some("false")) == CacheKey("x", Some("true|compare=false"))
  {
    Text.AsciiLowerKeeps("x|compare=true");
    Text.AsciiLowerKeeps("x");
    assert FlagText(Some("false")) == "false";
    assert FlagText(Some("true|compare=false")) == "true|compare=false";
    assert ("x|compare=true" + "|compare=") + "false" == ("x" + "|compare=") + "true|compare=false";
  }

  /** The reply for what the browser search gave. */
  function SearchAnswer(o: Outcome<seq<SearchItem>>): Reply {
    match o
    case Returned(v) => Reply(200, SearchResults(v))
    case Threw => Reply(500, ErrorBody(SearchFailed))
  }

  /** `GET /search/:query?isCompare=...`: the cache is read at `now` (ms)
      and, after a browser search, written at `done`. `scraped` says whether
      a browser search ran. */
  method SearchRoute(cache: Caches.NodeCache<seq<SearchItem>>, query: string, isCompare: Option<string>,
                     now: nat, done: nat, w: World)
    returns (resp: Reply, ghost scraped: bool)
    requires now <= done
    modifies cache
    ensures IsBlank(query) ==>
      resp == Reply(400, ErrorBody(QueryRequired)) && !scraped && cache.entries == old(cache.entries)
    ensures !IsBlank(query) ==>
      var key := CacheKey(query, isCompare);
      match Caches.NodeFind(old(cache.entries), key, now)
      case Some(v) =>
        resp == Reply(200, SearchResults(v)) && !scraped && cache.entries == old(cache.entries)
      case None =>
        scraped && resp == SearchAnswer(SeleniumOf(query, w)) &&
        match SeleniumOf(query, w)
        case Returned(v) => cache.entries == Caches.Put(old(cache.entries), key, v, done, cache.ttl)
        case Threw => cache.entries == old(cache.entries) - {key}
  {
    scraped := false;
    if IsBlank(query) {
      resp := Reply(400, ErrorBody(QueryRequired));
      return;
    }
    var key := CacheKey(query, isCompare);
    var cached := cache.Get(key, now);
    if cached.Some? {
      resp := Reply(200, SearchResults(cached.value));
      return;
    }
    scraped := true;
    var products, driver := ScrapeWithSelenium(query, isCompare == Some("true"), w);
    if products.Threw? {
      resp := Reply(500, ErrorBody(SearchFailed));
      return;
    }
    cache.Set(key, products.value, done);
    resp := Reply(200, SearchResults(products.value));
  }

  /** Two identical searches, the first arriving at `t1` on a cold key and
      storing its result at `d1`, the second arriving at `t2` after that:
      the second runs the browser again exactly when the TTL counted from
      `d1` has passed, and otherwise repeats the first reply whatever the
      browser would now give. */
  method RepeatedSearch(cache: Caches.NodeCache<seq<SearchItem>>, query: string, isCompare: Option<string>,
                        t1: nat, d1: nat, t2: nat, d2: nat, w1: World, w2: World)
    returns (first: Reply, second: Reply, ghost scraped1: bool, ghost scraped2: bool)
    requires !IsBlank(query)
    requires Caches.NodeFind(cache.entries, CacheKey(query, isCompare), t1).None?
    requires SeleniumOf(query, w1).Returned?
    requires t1 <= d1 <= t2 <= d2
    modifies cache
    ensures scraped1 && first == Reply(200, SearchResults(SeleniumOf(query, w1).value))
    ensures scraped2 <==> t2 > d1 + cache.ttl
    ensures !scraped2 ==> second == first
    ensures scraped2 ==> second == SearchAnswer(SeleniumOf(query, w2))
  {
    first, scraped1 := SearchRoute(cache, query, isCompare, t1, d1, w1);
    Caches.NodePutFind(old(cache.entries), CacheKey(query, isCompare), SeleniumOf(query, w1).value, d1, cache.ttl,
                       CacheKey(query, isCompare), t2);
    second, scraped2 := SearchRoute(cache, query, isCompare, t2, d2, w2);
  }

  /** The server's cache: `new NodeCache({ stdTTL: 3600 })`. */
  method NewServerCache() returns (cache: Caches.NodeCache<seq<SearchItem>>)
    ensures fresh(cache) && cache.ttl == CacheTtlSeconds * 1000 && cache.entries == map[]
  {
    cache := new Caches.NodeCache(CacheTtlSeconds);
  }
}
