/**
 * The headless browser as both servers drive it: a session that is
 * launched, sent to one URL, asked for the result nodes and quit. The
 * outcome of every stage is an input, collected in a `World`.
 */
module Browser {
  import opened Wrappers

  /** A live DOM element: its `textContent`, the text Selenium reports as
      rendered, and its resolved `src` and `href` values, if any. */
  datatype WebElement = WebElement(textContent: string, renderedText: string, src: Option<string>, href: Option<string>)

  /** One `div.sm-product.has-tag.has-features.has-actions` node with the
      first `a.name.clamp-2`, `span.price` and `img.sm-img` inside it. */
  datatype ResultNode = ResultNode(anchor: Option<WebElement>, price: Option<WebElement>, image: Option<WebElement>)

  /** What opening the search page gives: navigation raises, the result
      extraction raises (a failing script, or no result node within the
      wait), or the result nodes in document order. */
  datatype PageLoad = NavigationFails | ExtractionFails | Rendered(nodes: seq<ResultNode>)

  /** The outcomes of the stages: whether the session launches, what loading
      the search page for a sanitized query gives, and whether `quit` succeeds. */
  datatype World = World(launches: bool, load: string -> PageLoad, quitSucceeds: bool)

  /** A call that returns a value or lets an exception escape. */
  datatype Outcome<T> = Returned(value: T) | Threw

  /** A browser session. `quits` counts the calls to `quit` and `visited`
      records the queries navigated to. */
  class Driver {
    var live: bool
    ghost var quits: nat
    ghost var visited: seq<string>

    constructor ()
      ensures live && quits == 0 && visited == []
    {
      live := true;
      quits := 0;
      visited := [];
    }

    /** `driver.get(url)` for the search page of `query`, then the result extraction. */
    method Get(query: string, w: World) returns (page: PageLoad)
      requires live
      modifies this
      ensures page == w.load(query)
      ensures live && quits == old(quits) && visited == old(visited) + [query]
    {
      page := w.load(query);
      visited := visited + [query];
    }

    /** `driver.quit()`; `ok` is false when it raises. The session is given
        up either way. */
    method Quit(w: World) returns (ok: bool)
      modifies this
      ensures ok == w.quitSucceeds
      ensures !live && quits == old(quits) + 1 && visited == old(visited)
    {
      live := false;
      quits := quits + 1;
      ok := w.quitSucceeds;
    }
  }

  /** Builds a headless browser session; null when the launch raises. */
  method Launch(w: World) returns (d: Driver?)
    ensures (d != null) == w.launches
    ensures d != null ==> fresh(d) && d.live && d.quits == 0 && d.visited == []
  {
    if w.launches {
      d := new Driver();
    } else {
      d := null;
    }
  }
}
