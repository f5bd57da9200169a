/**
 * The parsed upstream page, after the selector engine has run. Each field
 * holds what one fixed CSS selector matches, in document order, so that the
 * extractors of both servers become functions of plain records.
 */
module Dom {
  import opened Wrappers
  import Text

  /** An element: its text nodes in document order and its attributes. */
  datatype Tag = Tag(texts: seq<string>, attrs: map<string, string>)

  /** All text under one element, concatenated (cheerio's `.text()`,
      BeautifulSoup's `.text`). */
  function TextOf(t: Tag): string {
    Text.Concat(t.texts)
  }

  /** cheerio's `.text()` on a selection: the texts of all selected elements, joined. */
  function SelectionText(ts: seq<Tag>): (r: string)
    ensures ts == [] ==> r == []
  {
    if ts == [] then [] else TextOf(ts[0]) + SelectionText(ts[1..])
  }

  /** cheerio's `.attr(name)`: the attribute of the first selected element, if any. */
  function FirstAttr(ts: seq<Tag>, name: string): (r: Option<string>)
    ensures r.Some? <==> ts != [] && name in ts[0].attrs
  {
    if ts != [] && name in ts[0].attrs then Some(ts[0].attrs[name]) else None
  }

  /** BeautifulSoup's `select_one`: the first match, if any. */
  function First(ts: seq<Tag>): (r: Option<Tag>)
    ensures r.Some? <==> ts != []
  {
    if ts == [] then None else Some(ts[0])
  }

  /**
   * A listing card `div.sm-product.has-tag.has-features.has-actions` and,
   * inside it, the matches of `a.name.clamp-2 h2` (headings), `a.name.clamp-2`
   * (anchors), `span.price` (prices) and `img.sm-img` (images).
   */
  datatype Card = Card(headings: seq<Tag>, anchors: seq<Tag>, prices: seq<Tag>, images: seq<Tag>)

  /** An `li` of a `ul.group`, with the `span` elements inside it. */
  datatype SpecItem = SpecItem(spans: seq<Tag>)

  /** A `ul.group` specification list. */
  datatype SpecGroup = SpecGroup(items: seq<SpecItem>)

  /** All `li span` elements of a group, in document order. */
  function GroupSpans(g: SpecGroup): seq<Tag> {
    SpansOf(g.items)
  }

  function SpansOf(items: seq<SpecItem>): seq<Tag> {
    if items == [] then [] else items[0].spans + SpansOf(items[1..])
  }

  /** A `.heading` element of the quick-specs box, with its immediately
      following sibling when that sibling is a `ul.group`. */
  datatype SpecHeading = SpecHeading(tag: Tag, next: Option<SpecGroup>)

  /** The first `div.sm-quick-specs`: its `div.heading` and its `ul.group`
      descendants, each list in document order. */
  datatype QuickSpecs = QuickSpecs(headings: seq<Tag>, groups: seq<SpecGroup>)

  /**
   * A product page. `titles` matches `.pg-prd-head h1`, `prices` matches
   * `.liner strong`, `features` matches `ul.sm-feat li`, `specHeadings` matches
   * `.sm-quick-specs .heading`, `quickSpecs` is the first `div.sm-quick-specs`
   * and `carousel` matches `div.sm-swiper img.sm-img`. `storeStripRaises`
   * records whether reading the store offers (which this model does not
   * extract) raises an exception.
   */
  datatype DetailPage = DetailPage(
    titles: seq<Tag>,
    prices: seq<Tag>,
    features: seq<Tag>,
    specHeadings: seq<SpecHeading>,
    quickSpecs: Option<QuickSpecs>,
    carousel: seq<Tag>,
    storeStripRaises: bool)

  /** The outcome of one HTTP GET: a response with its status and parsed page,
      or an exception (network failure, timeout, unparsable body). */
  datatype Fetched<P> = Response(status: nat, page: P) | Raised
}
