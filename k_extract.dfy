/**
 * The static extractors of backend/k.py: `scrape_smartprix` (listing cards)
 * and `scrape_smartprix_product` (one product page), each over the outcome
 * of the HTTP GET for the sanitized input. Items have the same
 * `{ name, price, img, link }` shape as in the JavaScript server.
 */
module KExtract {
  import opened Wrappers
  import Text
  import Seqs
  import opened Dom
  import Assoc
  import ServerExtract
  import opened KSanitize

  const NotAvailable := "N/A"
  const UnknownHeading := "Unknown"
  const ListingCap: nat := 10
  const RetrievePrefix := "Failed to retrieve page: "
  const ScrapeFailed := "Failed to scrape products"
  const FetchPageError := "Failed to fetch page"
  const DetailsError := "Failed to scrape product details"

  /** `get_text(strip=True)`: the stripped text nodes, joined. */
  function StrippedText(t: Tag): string {
    Text.Concat(Seqs.MapSeq(t.texts, Stripped))
  }

  /** `tag.text.strip() if tag else "N/A"`: only a missing tag falls back. */
  function TextOrNA(t: Option<Tag>): string {
    match t
    case None => NotAvailable
    case Some(tag) => Stripped(TextOf(tag))
  }

  /** `tag.get_text(strip=True) if tag else "N/A"`. */
  function GetTextOrNA(t: Option<Tag>): string {
    match t
    case None => NotAvailable
    case Some(tag) => StrippedText(tag)
  }

  /** `.text.strip()` strips the joined text, `get_text(strip=True)` strips
      each text node before joining: they differ on a tag whose text is
      split across elements, as in `<h1>Galaxy <span>S24</span></h1>`. */
  lemma StripThenJoinDiffers()
    ensures TextOrNA(Some(Tag(["Galaxy ", "S24"], map[]))) == "Galaxy S24"
    ensures GetTextOrNA(Some(Tag(["Galaxy ", "S24"], map[]))) == "GalaxyS24"
  {
    var t := Tag(["Galaxy ", "S24"], map[]);
    assert TextOf(t) == "Galaxy " + ("S24" + []);
    assert "Galaxy " + ("S24" + []) == "Galaxy S24";
    assert Stripped("Galaxy S24") == "Galaxy S24" by {
      assert !IsPySpace("Galaxy S24"[0]) && !IsPySpace("Galaxy S24"[9]);
    }
    assert Stripped("Galaxy ") == "Galaxy" by {
      assert "Galaxy "[..6] == "Galaxy";
      assert !IsPySpace("Galaxy"[0]) && !IsPySpace("Galaxy"[5]);
    }
    assert Stripped("S24") == "S24" by {
      assert !IsPySpace("S24"[0]) && !IsPySpace("S24"[2]);
    }
    assert Seqs.MapSeq(t.texts, Stripped) == ["Galaxy", "S24"] by {
      assert t.texts[..1] == ["Galaxy "];
      assert Seqs.MapSeq(["Galaxy "], Stripped) == Seqs.MapSeq([], Stripped) + [Stripped("Galaxy ")];
    }
    assert Text.Concat(["Galaxy", "S24"]) == "Galaxy" + ("S24" + []);
  }

  /** `tag[name] if tag else "N/A"`; `None` when the subscript raises `KeyError`. */
  function AttrOrNA(t: Option<Tag>, name: string): Option<string> {
    match t
    case None => Some(NotAvailable)
    case Some(tag) => if name in tag.attrs then Some(tag.attrs[name]) else None
  }

  /** The loop body of `scrape_smartprix` as written: the link is read from
      the `h2` found by `a.name.clamp-2 h2`. `None` when a lookup raises and
      the card is skipped. */
  function ReadCardAsWritten(c: Card): Option<ServerExtract.Product> {
    var nameTag := First(c.headings);
    var img := AttrOrNA(First(c.images), "src");
    var link := AttrOrNA(nameTag, "href");
    if img.None? || link.None? then None
    else Some(ServerExtract.Product(TextOrNA(nameTag), TextOrNA(First(c.prices)), img.value, link.value))
  }

  /** The loop body with the link read from the `a.name.clamp-2` anchor that
      carries it. */
  function ReadCard(c: Card): Option<ServerExtract.Product> {
    var img := AttrOrNA(First(c.images), "src");
    var link := AttrOrNA(First(c.anchors), "href");
    if img.None? || link.None? then None
    else Some(ServerExtract.Product(TextOrNA(First(c.headings)), TextOrNA(First(c.prices)), img.value, link.value))
  }

  /** A card is skipped exactly when it has an image without `src` or an
      anchor without `href`; otherwise each field is its tag's stripped text
      or attribute, and "N/A" only when the tag is missing. */
  lemma ReadCardMeaning(c: Card)
    ensures ReadCard(c).None? <==>
      (c.images != [] && "src" !in c.images[0].attrs) || (c.anchors != [] && "href" !in c.anchors[0].attrs)
    ensures ReadCard(c).Some? ==>
      var p := ReadCard(c).value;
      p.name == (if c.headings == [] then NotAvailable else Stripped(TextOf(c.headings[0]))) &&
      p.price == (if c.prices == [] then NotAvailable else Stripped(TextOf(c.prices[0]))) &&
      p.img == (if c.images == [] then NotAvailable else c.images[0].attrs["src"]) &&
      p.link == (if c.anchors == [] then NotAvailable else c.anchors[0].attrs["href"])
  {
  }

  /** As written, any card whose `h2` has no `href` is skipped. */
  lemma HeadingWithoutHrefSkipped(c: Card)
    requires c.headings != [] && "href" !in c.headings[0].attrs
    ensures ReadCardAsWritten(c).None?
  {
  }

  /** A card whose `h2` sits inside an anchor that carries the link: the
      code as written drops it, the corrected reader lists it. */
  lemma HeadingHrefCounterexample()
    ensures var c := Card([Tag(["Phone X"], map[])], [Tag(["Phone X"], map["href" := "/mobiles/phone-x"])],
                          [Tag(["9,999"], map[])], [Tag([], map["src" := "x.jpg"])]);
      ReadCardAsWritten(c).None? &&
      ReadCard(c) == Some(ServerExtract.Product(Stripped("Phone X"), Stripped("9,999"), "x.jpg", "/mobiles/phone-x"))
  {
    assert Text.Concat(["Phone X"]) == "Phone X";
    assert Text.Concat(["9,999"]) == "9,999";
  }

  /** The items of the first ten cards, skipping the cards `read` rejects. */
  function ListingWith(cards: seq<Card>, read: Card -> Option<ServerExtract.Product>): seq<ServerExtract.Product> {
    Seqs.FilterMap(Seqs.Take(cards, ListingCap), read)
  }

  /** The `for product in products[:10]` loop: `continue` on an exception,
      `append` otherwise. */
  method ExtractListing(cards: seq<Card>, read: Card -> Option<ServerExtract.Product>)
    returns (results: seq<ServerExtract.Product>)
    ensures results == ListingWith(cards, read)
  {
    var firsts := Seqs.Take(cards, ListingCap);
    results := [];
    for i := 0 to |firsts|
      invariant results == Seqs.FilterMap(firsts[..i], read)
    {
      Seqs.FilterMapStep(firsts, i, read);
      var item := read(firsts[i]);
      if item.Some? {
        results := results + [item.value];
      }
    }
    assert firsts[..|firsts|] == firsts;
  }

  /** For either reader: at most `min(10, #cards)` items, each read from
      one of the first ten cards, and one per card when no card is skipped. */
  lemma ListingShape(cards: seq<Card>, read: Card -> Option<ServerExtract.Product>, x: ServerExtract.Product)
    ensures |ListingWith(cards, read)| <= if |cards| < ListingCap then |cards| else ListingCap
    ensures x in ListingWith(cards, read) <==>
      exists i :: 0 <= i < |cards| && i < ListingCap && read(cards[i]) == Some(x)
    ensures (forall i :: 0 <= i < |cards| ==> read(cards[i]).Some?) ==>
      |ListingWith(cards, read)| == (if |cards| < ListingCap then |cards| else ListingCap)
  {
    var firsts := Seqs.Take(cards, ListingCap);
    Seqs.FilterMapBound(firsts, read);
    Seqs.FilterMapMembers(firsts, read, x);
    if exists i :: 0 <= i < |cards| && i < ListingCap && read(cards[i]) == Some(x) {
      var i :| 0 <= i < |cards| && i < ListingCap && read(cards[i]) == Some(x);
      assert firsts[i] == cards[i];
    }
    if forall i :: 0 <= i < |cards| ==> read(cards[i]).Some? {
      var g := (c: Card) => if read(c).Some? then read(c).value else ServerExtract.Product("", "", "", "");
      Seqs.FilterMapAll(firsts, read, g);
      Seqs.MapSeqAt(firsts, g);
    }
  }

  /** As written, a page whose every card has an `h2` without `href` lists nothing. */
  lemma ListingAsWrittenEmpty(cards: seq<Card>)
    requires forall i :: 0 <= i < |cards| ==> cards[i].headings != [] && "href" !in cards[i].headings[0].attrs
    ensures ListingWith(cards, ReadCardAsWritten) == []
  {
    var r := ListingWith(cards, ReadCardAsWritten);
    if r != [] {
      Seqs.FilterMapMembers(Seqs.Take(cards, ListingCap), ReadCardAsWritten, r[0]);
      assert false;
    }
  }

  /** What `scrape_smartprix` returns when its loop body reads cards with
      `read`; any status but 200 is an error. `ReadCardAsWritten` gives the
      function as written, `ReadCard` the one with the link corrected. */
  function ScrapeSmartprixOf(query: string, alnum: char -> bool, web: string -> Fetched<seq<Card>>,
                             read: Card -> Option<ServerExtract.Product>)
    : ServerExtract.ListingResult
  {
    match web(SanitizeQuery(query, alnum))
    case Response(status, cards) =>
      if status != 200 then ServerExtract.ListingFailed(RetrievePrefix + Text.Decimal(status))
      else ServerExtract.Listed(ListingWith(cards, read))
    case Raised => ServerExtract.ListingFailed(ScrapeFailed)
  }

  method ScrapeSmartprix(query: string, alnum: char -> bool, web: string -> Fetched<seq<Card>>,
                         read: Card -> Option<ServerExtract.Product>)
    returns (r: ServerExtract.ListingResult)
    ensures r == ScrapeSmartprixOf(query, alnum, web, read)
  {
    var sanitized := SanitizeQuery(query, alnum);
    var response := web(sanitized);
    if response.Raised? {
      r := ServerExtract.ListingFailed(ScrapeFailed);
    } else if response.status != 200 {
      r := ServerExtract.ListingFailed(RetrievePrefix + Text.Decimal(response.status));
    } else {
      var results := ExtractListing(response.page, read);
      r := ServerExtract.Listed(results);
    }
  }

  /** As written, a page of cards whose `h2` carries no `href` lists
      nothing. */
  lemma ScrapeSmartprixAsWrittenEmpty(query: string, alnum: char -> bool, web: string -> Fetched<seq<Card>>)
    requires web(SanitizeQuery(query, alnum)).Response? && web(SanitizeQuery(query, alnum)).status == 200
    requires var cards := web(SanitizeQuery(query, alnum)).page;
      forall i :: 0 <= i < |cards| ==> cards[i].headings != [] && "href" !in cards[i].headings[0].attrs
    ensures ScrapeSmartprixOf(query, alnum, web, ReadCardAsWritten) == ServerExtract.Listed([])
  {
    ListingAsWrittenEmpty(web(SanitizeQuery(query, alnum)).page);
  }

  /** The status a "Failed to retrieve page" message reports. */
  function ReportedStatus(error: string): int {
    if |error| < |RetrievePrefix| then -1 else Text.DecimalValue(error[|RetrievePrefix|..])
  }

  /** For either reader, the listing fails exactly when the GET raises or
      answers other than 200; the two messages are told apart, and the
      second one reports the status it was given. */
  lemma ScrapeSmartprixOutcome(query: string, alnum: char -> bool, web: string -> Fetched<seq<Card>>,
                               read: Card -> Option<ServerExtract.Product>)
    ensures var fetched := web(SanitizeQuery(query, alnum));
      var r := ScrapeSmartprixOf(query, alnum, web, read);
      (r.ListingFailed? <==> fetched.Raised? || fetched.status != 200) &&
      (fetched.Raised? ==> r.error == ScrapeFailed) &&
      (fetched.Response? && fetched.status != 200 ==>
         r.error != ScrapeFailed && RetrievePrefix <= r.error && ReportedStatus(r.error) == fetched.status) &&
      (r.Listed? ==> |r.products| <= ListingCap)
  {
    var fetched := web(SanitizeQuery(query, alnum));
    if fetched.Response? {
      if fetched.status != 200 {
        var e := RetrievePrefix + Text.Decimal(fetched.status);
        assert e[10] == 'r' && ScrapeFailed[10] == 's';
        assert e[|RetrievePrefix|..] == Text.Decimal(fetched.status);
        Text.DecimalRoundTrip(fetched.status);
      } else {
        var x := ServerExtract.Product("", "", "", "");
        ListingShape(fetched.page, read, x);
      }
    }
  }

  /** The list comprehension of one group: the first `span` of every `li`
      that has one. */
  function ItemSpan(li: SpecItem): Option<string> {
    if li.spans == [] then None else Some(StrippedText(li.spans[0]))
  }

  function GroupSpecs(g: SpecGroup): seq<string> {
    Seqs.FilterMap(g.items, ItemSpan)
  }

  /** `headings[i].get_text(strip=True) or "Unknown"`. */
  function HeadingName(t: Tag): string {
    ServerExtract.OrElse(StrippedText(t), UnknownHeading)
  }

  /** The first `n` heading/group pairs, by index. */
  function PairsUpTo(hs: seq<Tag>, gs: seq<SpecGroup>, n: nat): (ps: seq<(string, seq<string>)>)
    requires n <= |hs| && n <= |gs|
    ensures |ps| == n
  {
    if n == 0 then [] else PairsUpTo(hs, gs, n - 1) + [(HeadingName(hs[n - 1]), GroupSpecs(gs[n - 1]))]
  }

  /** `min(len(headings), len(groups))`. */
  function PairCount(q: QuickSpecs): nat {
    if |q.headings| < |q.groups| then |q.headings| else |q.groups|
  }

  /** The `specifications` dict: empty without a quick-specs box. */
  function SpecificationsOf(box: Option<QuickSpecs>): Assoc.Table<seq<string>> {
    match box
    case None => []
    case Some(q) => Assoc.Build(PairsUpTo(q.headings, q.groups, PairCount(q)))
  }

  /** The `for i in range(min(len(headings), len(groups)))` loop. */
  method CollectSpecifications(box: Option<QuickSpecs>) returns (specs: Assoc.Table<seq<string>>)
    ensures specs == SpecificationsOf(box)
  {
    specs := [];
    if box.None? {
      return;
    }
    var hs, gs := box.value.headings, box.value.groups;
    var n := PairCount(box.value);
    for i := 0 to n
      invariant specs == Assoc.Build(PairsUpTo(hs, gs, i))
    {
      var heading := HeadingName(hs[i]);
      var values := GroupSpecs(gs[i]);
      assert PairsUpTo(hs, gs, i + 1)[..i] == PairsUpTo(hs, gs, i);
      specs := Assoc.Put(specs, heading, values);
    }
  }

  lemma {:induction false} PairsUpToAt(hs: seq<Tag>, gs: seq<SpecGroup>, n: nat)
    requires n <= |hs| && n <= |gs|
    ensures forall i :: 0 <= i < n ==> PairsUpTo(hs, gs, n)[i] == (HeadingName(hs[i]), GroupSpecs(gs[i]))
  {
    if n > 0 {
      PairsUpToAt(hs, gs, n - 1);
    }
  }

  /** Heading `i` is stored with the specs of group `i` when `i` is below
      both counts and no later pair reuses its name. */
  lemma SpecificationsMeaning(q: QuickSpecs, i: nat)
    requires i < PairCount(q)
    requires forall j :: i < j < PairCount(q) ==> HeadingName(q.headings[j]) != HeadingName(q.headings[i])
    ensures Assoc.Lookup(SpecificationsOf(Some(q)), HeadingName(q.headings[i])) == Some(GroupSpecs(q.groups[i]))
  {
    var ps := PairsUpTo(q.headings, q.groups, PairCount(q));
    PairsUpToAt(q.headings, q.groups, PairCount(q));
    Assoc.BuildLookup(ps, i);
  }

  /** A name is stored only if one of the paired headings carries it: a
      heading without a group of the same index leaves no entry. */
  lemma SpecificationsKeys(q: QuickSpecs, k: string)
    ensures Assoc.Lookup(SpecificationsOf(Some(q)), k).Some? ==>
      exists j :: 0 <= j < PairCount(q) && HeadingName(q.headings[j]) == k
  {
    var ps := PairsUpTo(q.headings, q.groups, PairCount(q));
    Assoc.BuildMissing(ps, k);
    if k in Assoc.Keys(ps) {
      var j :| 0 <= j < |ps| && Assoc.Keys(ps)[j] == k;
      PairsUpToAt(q.headings, q.groups, PairCount(q));
      assert ps[j].0 == k;
    }
  }

  /** With distinct names there is one entry per pair. */
  lemma SpecificationsOfDistinct(q: QuickSpecs)
    requires forall i, j :: 0 <= i < j < PairCount(q) ==> HeadingName(q.headings[i]) != HeadingName(q.headings[j])
    ensures |SpecificationsOf(Some(q))| == PairCount(q)
  {
    var ps := PairsUpTo(q.headings, q.groups, PairCount(q));
    PairsUpToAt(q.headings, q.groups, PairCount(q));
    Assoc.BuildOfDistinct(ps);
  }

  /** Three headings and two groups: only the first two headings are stored. */
  lemma ThreeHeadingsTwoGroups(a: Tag, b: Tag, c: Tag, g1: SpecGroup, g2: SpecGroup)
    requires HeadingName(a) != HeadingName(b) && HeadingName(b) != HeadingName(c) && HeadingName(a) != HeadingName(c)
    ensures |SpecificationsOf(Some(QuickSpecs([a, b, c], [g1, g2])))| == 2
    ensures Assoc.Lookup(SpecificationsOf(Some(QuickSpecs([a, b, c], [g1, g2]))), HeadingName(c)).None?
  {
    var q := QuickSpecs([a, b, c], [g1, g2]);
    SpecificationsOfDistinct(q);
    if Assoc.Lookup(SpecificationsOf(Some(q)), HeadingName(c)).Some? {
      SpecificationsKeys(q, HeadingName(c));
      assert false;
    }
  }

  /** A group's specs are exactly the first spans of its `li` elements that
      have one, never more than there are `li` elements. */
  lemma GroupSpecsMeaning(g: SpecGroup, x: string)
    ensures x in GroupSpecs(g) <==>
      exists i :: 0 <= i < |g.items| && g.items[i].spans != [] && StrippedText(g.items[i].spans[0]) == x
    ensures |GroupSpecs(g)| <= |g.items|
  {
    Seqs.FilterMapMembers(g.items, ItemSpan, x);
    Seqs.FilterMapBound(g.items, ItemSpan);
  }

  /** A heading whose every text node is Python whitespace is stored as
      "Unknown"; any other heading under its stripped nodes, joined, which
      are then not empty. */
  lemma HeadingNameMeaning(t: Tag)
    ensures (forall i :: 0 <= i < |t.texts| ==> Text.AllSatisfy(t.texts[i], IsPySpace)) ==>
      HeadingName(t) == UnknownHeading
    ensures !(forall i :: 0 <= i < |t.texts| ==> Text.AllSatisfy(t.texts[i], IsPySpace)) ==>
      HeadingName(t) == StrippedText(t) && StrippedText(t) != ""
  {
    var stripped := Seqs.MapSeq(t.texts, Stripped);
    Seqs.MapSeqAt(t.texts, Stripped);
    Text.ConcatEmpty(stripped);
    forall i | 0 <= i < |t.texts|
      ensures stripped[i] == [] <==> Text.AllSatisfy(t.texts[i], IsPySpace)
    {
      Text.TrimEmptyIffBlank(t.texts[i], IsPySpace);
    }
  }

  /** `img["src"].strip()` for an image whose `src` is non-empty. */
  function CarouselSrc(img: Tag): Option<string> {
    if "src" in img.attrs && img.attrs["src"] != "" then Some(Stripped(img.attrs["src"])) else None
  }

  function CarouselOf(imgs: seq<Tag>): seq<string> {
    Seqs.FilterMap(imgs, CarouselSrc)
  }

  /** The carousel holds the stripped `src` of exactly the images whose
      `src` is non-empty, with no scheme filter. */
  lemma CarouselMeaning(imgs: seq<Tag>, x: string)
    ensures x in CarouselOf(imgs) <==>
      exists i :: 0 <= i < |imgs| && "src" in imgs[i].attrs && imgs[i].attrs["src"] != "" &&
                  Stripped(imgs[i].attrs["src"]) == x
    ensures |CarouselOf(imgs)| <= |imgs|
  {
    Seqs.FilterMapMembers(imgs, CarouselSrc, x);
    Seqs.FilterMapBound(imgs, CarouselSrc);
  }

  /** A relative image path is kept here and dropped by the JavaScript server. */
  lemma RelativeSrcKept()
    ensures CarouselOf([Tag([], map["src" := "/img/x.jpg"])]) == ["/img/x.jpg"]
    ensures ServerExtract.CarouselOf([Tag([], map["src" := "/img/x.jpg"])]) == []
  {
    var img := Tag([], map["src" := "/img/x.jpg"]);
    assert Seqs.FilterMap([img], CarouselSrc) == Seqs.FilterMap([], CarouselSrc) + [Stripped("/img/x.jpg")];
    assert !Text.StartsWith("/img/x.jpg", "http") by {
      assert "/img/x.jpg"[0] != "http"[0];
    }
    assert Seqs.FilterMap([img], ServerExtract.AbsoluteSrc) == Seqs.FilterMap([], ServerExtract.AbsoluteSrc);
  }

  /** The product dict of `scrape_smartprix_product`, without the store
      offers. */
  datatype Detail = Detail(
    id: string, name: string, price: string,
    features: seq<string>,
    specifications: Assoc.Table<seq<string>>,
    carouselImages: seq<string>)

  function DetailOf(page: DetailPage): Detail {
    var name := GetTextOrNA(First(page.titles));
    Detail(name, name, GetTextOrNA(First(page.prices)),
           Seqs.MapSeq(page.features, StrippedText),
           SpecificationsOf(page.quickSpecs),
           CarouselOf(page.carousel))
  }

  /** What `scrape_smartprix_product` gives: the dict, an `{ "error" }` dict,
      or an exception escaping from the store-offer loops. */
  datatype DetailResult = Found(detail: Detail) | DetailFailed(error: string) | Raises

  function ScrapeProductDetailsOf(url: string, alnum: char -> bool, web: string -> Fetched<DetailPage>)
    : DetailResult
  {
    match web(SanitizePath(url, alnum))
    case Raised => DetailFailed(DetailsError)
    case Response(status, page) =>
      if status != 200 then DetailFailed(FetchPageError)
      else if page.storeStripRaises then Raises
      else Found(DetailOf(page))
  }

  method ScrapeProductDetails(url: string, alnum: char -> bool, web: string -> Fetched<DetailPage>)
    returns (r: DetailResult)
    ensures r == ScrapeProductDetailsOf(url, alnum, web)
  {
    var sanitized := SanitizePath(url, alnum);
    var response := web(sanitized);
    if response.Raised? {
      r := DetailFailed(DetailsError);
      return;
    }
    if response.status != 200 {
      r := DetailFailed(FetchPageError);
      return;
    }
    var page := response.page;
    if page.storeStripRaises {
      r := Raises;
      return;
    }
    var specs := CollectSpecifications(page.quickSpecs);
    var name := GetTextOrNA(First(page.titles));
    r := Found(Detail(name, name, GetTextOrNA(First(page.prices)),
                      Seqs.MapSeq(page.features, StrippedText), specs, CarouselOf(page.carousel)));
  }

  /** The GET raising gives "Failed to scrape product details", any status
      but 200 gives "Failed to fetch page"; a detail has `id == name`, both
      the stripped-and-joined text nodes of the first title tag ("N/A" only
      without one), the price likewise from the first price tag, one feature
      per `li` in order, the specifications table and the carousel. */
  lemma ScrapeProductDetailsShape(url: string, alnum: char -> bool, web: string -> Fetched<DetailPage>)
    ensures var fetched := web(SanitizePath(url, alnum));
      var r := ScrapeProductDetailsOf(url, alnum, web);
      (fetched.Raised? ==> r == DetailFailed(DetailsError)) &&
      (fetched.Response? && fetched.status != 200 ==> r == DetailFailed(FetchPageError)) &&
      (r.Found? <==> fetched.Response? && fetched.status == 200 && !fetched.page.storeStripRaises) &&
      (r.Found? ==>
         r.detail.id == r.detail.name &&
         (fetched.page.titles == [] ==> r.detail.name == NotAvailable) &&
         (fetched.page.titles != [] ==> r.detail.name == StrippedText(fetched.page.titles[0])) &&
         (fetched.page.prices == [] ==> r.detail.price == NotAvailable) &&
         (fetched.page.prices != [] ==> r.detail.price == StrippedText(fetched.page.prices[0])) &&
         r.detail.specifications == SpecificationsOf(fetched.page.quickSpecs) &&
         r.detail.carouselImages == CarouselOf(fetched.page.carousel) &&
         |r.detail.features| == |fetched.page.features| &&
         forall i :: 0 <= i < |fetched.page.features| ==>
           r.detail.features[i] == StrippedText(fetched.page.features[i]))
  {
    var fetched := web(SanitizePath(url, alnum));
    if fetched.Response? {
      Seqs.MapSeqAt(fetched.page.features, StrippedText);
    }
  }
}
