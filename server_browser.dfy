/** `scrapeWithSelenium` of backend-js/server.js: the browser-driven search. */
module ServerBrowser {
  import opened Wrappers
  import Seqs
  import opened Browser
  import opened ServerSanitize

  const BrowserCap: nat := 40

  /** `{ id, name, price, img, link }` as the in-page script builds it. */
  datatype SearchItem = SearchItem(id: string, name: string, price: string, img: string, link: string)

  /** `el?.prop || ''`. */
  function OrEmpty(s: Option<string>): string {
    match s
    case Some(v) => v
    case None => ""
  }

  function ItemOf(n: ResultNode): SearchItem {
    var name := if n.anchor.Some? then n.anchor.value.textContent else "";
    var price := if n.price.Some? then n.price.value.textContent else "";
    var img := if n.image.Some? then OrEmpty(n.image.value.src) else "";
    var link := if n.anchor.Some? then OrEmpty(n.anchor.value.href) else "";
    SearchItem(name, name, price, img, link)
  }

  /** The items the script returns: one per node among the first 40. */
  function ScriptResultOf(nodes: seq<ResultNode>): seq<SearchItem> {
    Seqs.MapSeq(Seqs.Take(nodes, BrowserCap), ItemOf)
  }

  /** The in-page `for (i < Math.min(elements.length, 40))` loop with `results.push`. */
  method RunSearchScript(nodes: seq<ResultNode>) returns (results: seq<SearchItem>)
    ensures results == ScriptResultOf(nodes)
  {
    var n := if |nodes| < BrowserCap then |nodes| else BrowserCap;
    ghost var firsts := Seqs.Take(nodes, BrowserCap);
    results := [];
    for i := 0 to n
      invariant results == Seqs.MapSeq(firsts[..i], ItemOf)
    {
      Seqs.MapSeqStep(firsts, i, ItemOf);
      assert firsts[i] == nodes[i];
      results := results + [ItemOf(nodes[i])];
    }
    assert firsts[..n] == firsts;
  }

  /** At most 40 items; item `i` comes from node `i`, has `id == name`, and a
      field whose element is missing is empty. */
  lemma ScriptResultShape(nodes: seq<ResultNode>)
    ensures |ScriptResultOf(nodes)| == if |nodes| < BrowserCap then |nodes| else BrowserCap
    ensures forall i :: 0 <= i < |ScriptResultOf(nodes)| ==>
      var it := ScriptResultOf(nodes)[i];
      it == ItemOf(nodes[i]) && it.id == it.name &&
      (nodes[i].anchor.None? ==> it.name == "" && it.link == "") &&
      (nodes[i].price.None? ==> it.price == "") &&
      (nodes[i].image.None? ==> it.img == "")
  {
    Seqs.MapSeqAt(Seqs.Take(nodes, BrowserCap), ItemOf);
  }

  /** What `scrapeWithSelenium` gives: the script's items, `[]` from the
      `catch` when launch, navigation or the script raises, and an escaping
      exception when `quit` in the `finally` raises. */
  function SeleniumOf(query: string, w: World): Outcome<seq<SearchItem>> {
    if !w.launches then Returned([])
    else if !w.quitSucceeds then Threw
    else match w.load(SanitizeQuery(query))
      case Rendered(nodes) => Returned(ScriptResultOf(nodes))
      case NavigationFails => Returned([])
      case ExtractionFails => Returned([])
  }

  /** `scrapeWithSelenium(query, isCompare)`; `isCompare` has no effect on
      the search. The ghost `driver` is the session built, if any. */
  method ScrapeWithSelenium(query: string, isCompare: bool, w: World)
    returns (r: Outcome<seq<SearchItem>>, ghost driver: Driver?)
    ensures r == SeleniumOf(query, w)
    ensures (driver != null) == w.launches
    ensures driver != null ==>
      fresh(driver) && !driver.live && driver.quits == 1 && driver.visited == [SanitizeQuery(query)]
  {
    var sanitized := SanitizeQuery(query);
    var d := Launch(w);
    driver := d;
    if d == null {
      r := Returned([]);
      return;
    }
    var products: seq<SearchItem> := [];
    var page := d.Get(sanitized, w);
    if page.Rendered? {
      products := RunSearchScript(page.nodes);
    }
    var ok := d.Quit(w);
    r := if ok then Returned(products) else Threw;
  }

  /** Capped at 40, `[]` on every failing stage when `quit` succeeds, and no
      exception ever escapes when no session was built. */
  lemma SeleniumOutcomes(query: string, w: World)
    ensures SeleniumOf(query, w).Returned? ==> |SeleniumOf(query, w).value| <= BrowserCap
    ensures !w.launches ==> SeleniumOf(query, w) == Returned([])
    ensures w.launches && w.quitSucceeds && !w.load(SanitizeQuery(query)).Rendered? ==>
      SeleniumOf(query, w) == Returned([])
    ensures SeleniumOf(query, w).Threw? <==> w.launches && !w.quitSucceeds
  {
    var page := w.load(SanitizeQuery(query));
    if page.Rendered? {
      ScriptResultShape(page.nodes);
    }
  }

  /** The page the browser loads depends on the query only through its
      sanitized form. */
  lemma SeleniumSeesSanitizedQuery(q1: string, q2: string, w: World)
    requires SanitizeQuery(q1) == SanitizeQuery(q2)
    ensures SeleniumOf(q1, w) == SeleniumOf(q2, w)
  {
  }
}
