/** `scrape_search` of backend/k.py: the browser-driven search. */
module KBrowser {
  import opened Wrappers
  import Seqs
  import opened Browser
  import opened KSanitize

  const SearchCap: nat := 40
  const CompareCap: nat := 20

  /** `limit_product = 40 if not isCompare else 20`. */
  function Limit(isCompare: bool): nat {
    if isCompare then CompareCap else SearchCap
  }

  /** `{ 'id', 'name', 'price', 'img', 'link' }`; `get_attribute` gives
      `None` for a missing attribute. */
  datatype SearchItem = SearchItem(id: string, name: string, price: string, img: Option<string>, link: Option<string>)

  /** The loop body: `find_element` raises when an element is missing, and
      the node is then skipped. */
  function ReadNode(n: ResultNode): Option<SearchItem> {
    match (n.anchor, n.price, n.image)
    case (Some(a), Some(p), Some(i)) => Some(SearchItem(a.renderedText, a.renderedText, p.renderedText, i.src, a.href))
    case _ => None
  }

  function ResultsOf(nodes: seq<ResultNode>, isCompare: bool): seq<SearchItem> {
    Seqs.FilterMap(Seqs.Take(nodes, Limit(isCompare)), ReadNode)
  }

  /** The `for product in products[:limit_product]` loop. */
  method CollectResults(nodes: seq<ResultNode>, isCompare: bool) returns (results: seq<SearchItem>)
    ensures results == ResultsOf(nodes, isCompare)
  {
    var firsts := Seqs.Take(nodes, Limit(isCompare));
    results := [];
    for i := 0 to |firsts|
      invariant results == Seqs.FilterMap(firsts[..i], ReadNode)
    {
      Seqs.FilterMapStep(firsts, i, ReadNode);
      var n := firsts[i];
      if n.anchor.Some? && n.price.Some? && n.image.Some? {
        var name := n.anchor.value.renderedText;
        results := results + [SearchItem(name, name, n.price.value.renderedText, n.image.value.src, n.anchor.value.href)];
      }
    }
    assert firsts[..|firsts|] == firsts;
  }

  /** At most 40 items, 20 in compare mode; every item comes from a node
      among the first `limit` that has all three elements, and has `id == name`. */
  lemma ResultsShape(nodes: seq<ResultNode>, isCompare: bool, x: SearchItem)
    ensures |ResultsOf(nodes, isCompare)| <= Limit(isCompare)
    ensures isCompare ==> |ResultsOf(nodes, isCompare)| <= CompareCap
    ensures x in ResultsOf(nodes, isCompare) <==>
      exists i :: 0 <= i < |nodes| && i < Limit(isCompare) && ReadNode(nodes[i]) == Some(x)
    ensures x in ResultsOf(nodes, isCompare) ==> x.id == x.name
  {
    var firsts := Seqs.Take(nodes, Limit(isCompare));
    Seqs.FilterMapBound(firsts, ReadNode);
    Seqs.FilterMapMembers(firsts, ReadNode, x);
    if exists i :: 0 <= i < |nodes| && i < Limit(isCompare) && ReadNode(nodes[i]) == Some(x) {
      var i :| 0 <= i < |nodes| && i < Limit(isCompare) && ReadNode(nodes[i]) == Some(x);
      assert firsts[i] == nodes[i];
    }
  }

  /** What `scrape_search` gives: `[]` from the `except` when the driver
      cannot be built (`init_driver` raises), when navigation raises or when
      no result node appears within the wait; an exception escaping when
      `quit` in the `finally` raises. */
  function ScrapeSearchOf(query: string, isCompare: bool, alnum: char -> bool, w: World): Outcome<seq<SearchItem>> {
    if !w.launches then Returned([])
    else if !w.quitSucceeds then Threw
    else match w.load(SanitizeQuery(query, alnum))
      case Rendered(nodes) => Returned(ResultsOf(nodes, isCompare))
      case NavigationFails => Returned([])
      case ExtractionFails => Returned([])
  }

  /** `scrape_search(query, isCompare)`. The ghost `driver` is the session
      built, if any: it is quit exactly once exactly when it was built. */
  method ScrapeSearch(query: string, isCompare: bool, alnum: char -> bool, w: World)
    returns (r: Outcome<seq<SearchItem>>, ghost driver: Driver?)
    ensures r == ScrapeSearchOf(query, isCompare, alnum, w)
    ensures (driver != null) == w.launches
    ensures driver != null ==>
      fresh(driver) && !driver.live && driver.quits == 1 && driver.visited == [SanitizeQuery(query, alnum)]
  {
    var sanitized := SanitizeQuery(query, alnum);
    var d := Launch(w);
    driver := d;
    if d == null {
      r := Returned([]);
      return;
    }
    var results: seq<SearchItem> := [];
    var page := d.Get(sanitized, w);
    if page.Rendered? {
      results := CollectResults(page.nodes, isCompare);
    }
    var ok := d.Quit(w);
    r := if ok then Returned(results) else Threw;
  }

  /** Capped by the mode's limit, `[]` on any failing stage when `quit`
      succeeds, and an exception only from a failing `quit` of a built driver. */
  lemma ScrapeSearchOutcomes(query: string, isCompare: bool, alnum: char -> bool, w: World)
    ensures var r := ScrapeSearchOf(query, isCompare, alnum, w);
      (r.Returned? ==> |r.value| <= Limit(isCompare)) &&
      (!w.launches ==> r == Returned([])) &&
      (w.launches && w.quitSucceeds && !w.load(SanitizeQuery(query, alnum)).Rendered? ==> r == Returned([])) &&
      (r.Threw? <==> w.launches && !w.quitSucceeds)
  {
    var page := w.load(SanitizeQuery(query, alnum));
    if page.Rendered? {
      ResultsShape(page.nodes, isCompare, SearchItem("", "", "", None, None));
    }
  }
}
