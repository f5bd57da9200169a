/**
 * The static extractors of backend-js/server.js: `scrapeSmartprix` (listing
 * cards) and `scrapeProductDetails` (one product page), each over the
 * outcome of the HTTP GET for the sanitized input.
 */
module ServerExtract {
  import opened Wrappers
  import Text
  import Seqs
  import opened Dom
  import Assoc
  import opened ServerSanitize

  const NotAvailable := "N/A"
  const UnknownHeading := "Unknown"
  const ListingCap: nat := 10
  const ListingError := "Failed to scrape products"
  const DetailsError := "Failed to scrape product details"

  /** `s || fallback` on a string: the empty string is falsy. */
  function OrElse(s: string, fallback: string): string {
    if s == "" then fallback else s
  }

  /** `attr || 'N/A'`: `undefined` and `''` both fall back. */
  function AttrOrNA(a: Option<string>): string {
    match a
    case None => NotAvailable
    case Some(s) => OrElse(s, NotAvailable)
  }

  /** The trimmed text of a selection, or 'N/A' when it is empty. */
  function TextOrNA(ts: seq<Tag>): string {
    OrElse(Trimmed(SelectionText(ts)), NotAvailable)
  }

  /** `{ name, price, img, link }` of one listing item. */
  datatype Product = Product(name: string, price: string, img: string, link: string)

  function ProductOf(c: Card): Product {
    Product(TextOrNA(c.headings), TextOrNA(c.prices),
            AttrOrNA(FirstAttr(c.images, "src")), AttrOrNA(FirstAttr(c.anchors, "href")))
  }

  /** A text field is 'N/A' when the selection's text is whitespace only, and
      otherwise that text trimmed, which then neither starts nor ends with
      whitespace. */
  lemma TextOrNAMeaning(ts: seq<Tag>)
    ensures Text.AllSatisfy(SelectionText(ts), IsJsSpace) ==> TextOrNA(ts) == NotAvailable
    ensures !Text.AllSatisfy(SelectionText(ts), IsJsSpace) ==>
      var r := TextOrNA(ts);
      r == Trimmed(SelectionText(ts)) && r != "" && !IsJsSpace(r[0]) && !IsJsSpace(r[|r| - 1])
  {
    Text.TrimEmptyIffBlank(SelectionText(ts), IsJsSpace);
  }

  /** An attribute field is 'N/A' when the attribute is missing or empty, and
      otherwise the attribute itself. */
  lemma AttrOrNAMeaning(a: Option<string>)
    ensures a.None? || a == Some("") ==> AttrOrNA(a) == NotAvailable
    ensures a.Some? && a.value != "" ==> AttrOrNA(a) == a.value
  {
  }

  /** The items built from the first ten cards, in card order. */
  function ListingOf(cards: seq<Card>): seq<Product> {
    Seqs.MapSeq(Seqs.Take(cards, ListingCap), ProductOf)
  }

  /** At most ten items; item `i` is built from card `i`; no cards, no items. */
  lemma ListingShape(cards: seq<Card>)
    ensures |ListingOf(cards)| == if |cards| < ListingCap then |cards| else ListingCap
    ensures forall i :: 0 <= i < |ListingOf(cards)| ==> ListingOf(cards)[i] == ProductOf(cards[i])
    ensures cards == [] ==> ListingOf(cards) == []
  {
    var firsts := Seqs.Take(cards, ListingCap);
    Seqs.MapSeqAt(firsts, ProductOf);
  }

  /** The `.slice(0, 10).each(...)` loop that pushes one item per card. */
  method ExtractListing(cards: seq<Card>) returns (products: seq<Product>)
    ensures products == ListingOf(cards)
  {
    var firsts := Seqs.Take(cards, ListingCap);
    products := [];
    var i := 0;
    while i < |firsts|
      invariant 0 <= i <= |firsts|
      invariant products == Seqs.MapSeq(firsts[..i], ProductOf)
    {
      Seqs.MapSeqStep(firsts, i, ProductOf);
      products := products + [ProductOf(firsts[i])];
      i := i + 1;
    }
    assert firsts[..i] == firsts;
  }

  /** What `scrapeSmartprix` returns: the items, or `{ error }`. */
  datatype ListingResult = Listed(products: seq<Product>) | ListingFailed(error: string)

  /** axios rejects any status outside 2xx, which lands in the `catch`. */
  predicate IsSuccess(status: nat) {
    200 <= status < 300
  }

  function ScrapeSmartprixOf(query: string, web: string -> Fetched<seq<Card>>): ListingResult {
    match web(SanitizeQuery(query))
    case Response(status, cards) =>
      if IsSuccess(status) then Listed(ListingOf(cards)) else ListingFailed(ListingError)
    case Raised => ListingFailed(ListingError)
  }

  /** `scrapeSmartprix(query)`; `web` answers the GET for a sanitized query. */
  method ScrapeSmartprix(query: string, web: string -> Fetched<seq<Card>>) returns (r: ListingResult)
    ensures r == ScrapeSmartprixOf(query, web)
  {
    var sanitized := SanitizeQuery(query);
    var response := web(sanitized);
    match response {
      case Response(status, cards) =>
        if IsSuccess(status) {
          var products := ExtractListing(cards);
          r := Listed(products);
        } else {
          r := ListingFailed(ListingError);
        }
      case Raised =>
        r := ListingFailed(ListingError);
    }
  }

  /** A listing scrape fails exactly when the GET raises or answers outside
      2xx; otherwise it lists at most ten items. */
  lemma ScrapeSmartprixOutcome(query: string, web: string -> Fetched<seq<Card>>)
    ensures ScrapeSmartprixOf(query, web).ListingFailed? <==>
      web(SanitizeQuery(query)).Raised? || !IsSuccess(web(SanitizeQuery(query)).status)
    ensures ScrapeSmartprixOf(query, web).ListingFailed? ==>
      ScrapeSmartprixOf(query, web).error == ListingError
    ensures ScrapeSmartprixOf(query, web).Listed? ==> |ScrapeSmartprixOf(query, web).products| <= ListingCap
  {
    if web(SanitizeQuery(query)).Response? {
      ListingShape(web(SanitizeQuery(query)).page);
    }
  }

  /** `$(el).text().trim()`. */
  function TrimmedText(t: Tag): string {
    Trimmed(TextOf(t))
  }

  /** An `.each` loop that pushes the trimmed text of every element, as for
      the features and for the spans of a spec group. */
  method CollectTrimmedTexts(ts: seq<Tag>) returns (texts: seq<string>)
    ensures texts == Seqs.MapSeq(ts, TrimmedText)
  {
    texts := [];
    var i := 0;
    while i < |ts|
      invariant 0 <= i <= |ts|
      invariant texts == Seqs.MapSeq(ts[..i], TrimmedText)
    {
      Seqs.MapSeqStep(ts, i, TrimmedText);
      texts := texts + [TrimmedText(ts[i])];
      i := i + 1;
    }
    assert ts[..i] == ts;
  }

  /** The key a heading is stored under. */
  function HeadingKey(h: SpecHeading): string {
    OrElse(TrimmedText(h.tag), UnknownHeading)
  }

  /** The specs of a heading: the span texts of the `ul.group` right after it, or none. */
  function HeadingSpecs(h: SpecHeading): seq<string> {
    match h.next
    case None => []
    case Some(g) => Seqs.MapSeq(GroupSpans(g), TrimmedText)
  }

  function HeadingEntry(h: SpecHeading): (string, seq<string>) {
    (HeadingKey(h), HeadingSpecs(h))
  }

  /** `specifications[heading] = specs` for every heading in document order. */
  function SpecificationsOf(hs: seq<SpecHeading>): Assoc.Table<seq<string>> {
    Assoc.Build(Seqs.MapSeq(hs, HeadingEntry))
  }

  /** One more heading assigns its entry to the table built so far. */
  lemma SpecificationsStep(hs: seq<SpecHeading>, i: nat)
    requires i < |hs|
    ensures Assoc.Build(Seqs.MapSeq(hs[..i + 1], HeadingEntry)) ==
      Assoc.Put(Assoc.Build(Seqs.MapSeq(hs[..i], HeadingEntry)), HeadingKey(hs[i]), HeadingSpecs(hs[i]))
  {
    Seqs.MapSeqStep(hs, i, HeadingEntry);
    Assoc.BuildSnoc(Seqs.MapSeq(hs[..i], HeadingEntry), HeadingEntry(hs[i]));
  }

  method CollectSpecifications(hs: seq<SpecHeading>) returns (specs: Assoc.Table<seq<string>>)
    ensures specs == SpecificationsOf(hs)
  {
    specs := [];
    var i := 0;
    while i < |hs|
      invariant 0 <= i <= |hs|
      invariant specs == Assoc.Build(Seqs.MapSeq(hs[..i], HeadingEntry))
    {
      var h := hs[i];
      var heading := HeadingKey(h);
      var values: seq<string> := [];
      if h.next.Some? {
        values := CollectTrimmedTexts(GroupSpans(h.next.value));
      }
      SpecificationsStep(hs, i);
      specs := Assoc.Put(specs, heading, values);
      i := i + 1;
    }
    assert hs[..i] == hs;
  }

  /** Every heading's key is in the table, holding the specs of the last
      heading with that key; a heading with no following group maps to
      `[]`; blank headings are stored as 'Unknown'; and when no two headings
      share a key there is one entry per heading, in document order. */
  lemma SpecificationsMeaning(hs: seq<SpecHeading>, i: nat)
    requires i < |hs|
    requires forall j :: i < j < |hs| ==> HeadingKey(hs[j]) != HeadingKey(hs[i])
    ensures Assoc.Lookup(SpecificationsOf(hs), HeadingKey(hs[i])) == Some(HeadingSpecs(hs[i]))
    ensures hs[i].next.None? ==> Assoc.Lookup(SpecificationsOf(hs), HeadingKey(hs[i])) == Some([])
  {
    var ps := Seqs.MapSeq(hs, HeadingEntry);
    Seqs.MapSeqAt(hs, HeadingEntry);
    Assoc.BuildLookup(ps, i);
  }

  lemma SpecificationsOfDistinct(hs: seq<SpecHeading>)
    requires forall i, j :: 0 <= i < j < |hs| ==> HeadingKey(hs[i]) != HeadingKey(hs[j])
    ensures |SpecificationsOf(hs)| == |hs|
    ensures forall i :: 0 <= i < |hs| ==> SpecificationsOf(hs)[i] == (HeadingKey(hs[i]), HeadingSpecs(hs[i]))
  {
    var ps := Seqs.MapSeq(hs, HeadingEntry);
    Seqs.MapSeqAt(hs, HeadingEntry);
    Assoc.BuildOfDistinct(ps);
  }

  /** Three headings of which only the first two are followed by a group:
      three keys, the third mapped to no specs. */
  lemma ThreeHeadingsTwoGroups(a: SpecHeading, b: SpecHeading, c: SpecHeading)
    requires a.next.Some? && b.next.Some? && c.next.None?
    requires HeadingKey(a) != HeadingKey(b) && HeadingKey(b) != HeadingKey(c) && HeadingKey(a) != HeadingKey(c)
    ensures |SpecificationsOf([a, b, c])| == 3
    ensures Assoc.Lookup(SpecificationsOf([a, b, c]), HeadingKey(c)) == Some([])
  {
    var hs := [a, b, c];
    SpecificationsOfDistinct(hs);
    SpecificationsMeaning(hs, 2);
  }

  lemma HeadingKeyMeaning(h: SpecHeading)
    ensures Text.AllSatisfy(TextOf(h.tag), IsJsSpace) ==> HeadingKey(h) == UnknownHeading
    ensures !Text.AllSatisfy(TextOf(h.tag), IsJsSpace) ==> HeadingKey(h) == TrimmedText(h.tag)
  {
    Text.TrimEmptyIffBlank(TextOf(h.tag), IsJsSpace);
  }

  /** The `src` an image contributes: only one that starts with "http". */
  function AbsoluteSrc(img: Tag): Option<string> {
    match FirstAttr([img], "src")
    case Some(src) => if src != "" && Text.StartsWith(src, "http") then Some(src) else None
    case None => None
  }

  function CarouselOf(imgs: seq<Tag>): seq<string> {
    Seqs.FilterMap(imgs, AbsoluteSrc)
  }

  /** The carousel holds exactly the `src` values that start with "http" and
      no more entries than there are images. */
  lemma CarouselMeaning(imgs: seq<Tag>, x: string)
    ensures x in CarouselOf(imgs) <==>
      Text.StartsWith(x, "http") && exists i :: 0 <= i < |imgs| && "src" in imgs[i].attrs && imgs[i].attrs["src"] == x
    ensures |CarouselOf(imgs)| <= |imgs|
  {
    Seqs.FilterMapMembers(imgs, AbsoluteSrc, x);
    Seqs.FilterMapBound(imgs, AbsoluteSrc);
  }

  /** The `.each` loop that pushes every `src` starting with "http". */
  method CollectCarousel(imgs: seq<Tag>) returns (srcs: seq<string>)
    ensures srcs == CarouselOf(imgs)
  {
    srcs := [];
    var i := 0;
    while i < |imgs|
      invariant 0 <= i <= |imgs|
      invariant srcs == Seqs.FilterMap(imgs[..i], AbsoluteSrc)
    {
      Seqs.FilterMapStep(imgs, i, AbsoluteSrc);
      var src := AbsoluteSrc(imgs[i]);
      if src.Some? {
        srcs := srcs + [src.value];
      }
      i := i + 1;
    }
    assert imgs[..i] == imgs;
  }

  /** The product detail object; `listings` and `detailedListings` stay empty. */
  datatype Detail = Detail(
    id: string, name: string, price: string,
    features: seq<string>,
    specifications: Assoc.Table<seq<string>>,
    carouselImages: seq<string>,
    listings: seq<string>, detailedListings: seq<string>)

  function DetailOf(page: DetailPage): Detail {
    var name := TextOrNA(page.titles);
    Detail(name, name, TextOrNA(page.prices),
           Seqs.MapSeq(page.features, TrimmedText),
           SpecificationsOf(page.specHeadings),
           CarouselOf(page.carousel), [], [])
  }

  /** What `scrapeProductDetails` returns: the detail, or `{ error }`. */
  datatype DetailResult = Found(detail: Detail) | DetailFailed(error: string)

  function ScrapeProductDetailsOf(url: string, web: string -> Fetched<DetailPage>): DetailResult {
    match web(SanitizePath(url))
    case Response(status, page) =>
      if IsSuccess(status) then Found(DetailOf(page)) else DetailFailed(DetailsError)
    case Raised => DetailFailed(DetailsError)
  }

  /** `scrapeProductDetails(url)`; `web` answers the GET for a sanitized path. */
  method ScrapeProductDetails(url: string, web: string -> Fetched<DetailPage>) returns (r: DetailResult)
    ensures r == ScrapeProductDetailsOf(url, web)
  {
    var sanitized := SanitizePath(url);
    var response := web(sanitized);
    match response {
      case Raised =>
        r := DetailFailed(DetailsError);
      case Response(status, page) =>
        if !IsSuccess(status) {
          r := DetailFailed(DetailsError);
        } else {
          var name := TextOrNA(page.titles);
          var price := TextOrNA(page.prices);
          var features := CollectTrimmedTexts(page.features);
          var specs := CollectSpecifications(page.specHeadings);
          var carousel := CollectCarousel(page.carousel);
          r := Found(Detail(name, name, price, features, specs, carousel, [], []));
        }
    }
  }

  /** A detail has `id == name`, empty listings, only absolute carousel
      images and one feature per `li`; the only failure is the fixed error
      message, returned exactly when the GET raises or answers outside 2xx. */
  lemma ScrapeProductDetailsShape(url: string, web: string -> Fetched<DetailPage>)
    ensures var r := ScrapeProductDetailsOf(url, web);
      r.DetailFailed? <==> web(SanitizePath(url)).Raised? || !IsSuccess(web(SanitizePath(url)).status)
    ensures var r := ScrapeProductDetailsOf(url, web);
      r.DetailFailed? ==> r.error == DetailsError
    ensures var r := ScrapeProductDetailsOf(url, web);
      r.Found? ==>
        r.detail.id == r.detail.name &&
        r.detail.listings == [] && r.detail.detailedListings == [] &&
        |r.detail.features| == |web(SanitizePath(url)).page.features| &&
        forall x :: x in r.detail.carouselImages ==> Text.StartsWith(x, "http")
  {
    var resp := web(SanitizePath(url));
    if resp.Response? && IsSuccess(resp.status) {
      Seqs.MapSeqAt(resp.page.features, TrimmedText);
      forall x | x in CarouselOf(resp.page.carousel) ensures Text.StartsWith(x, "http") {
        CarouselMeaning(resp.page.carousel, x);
      }
    }
  }
}
