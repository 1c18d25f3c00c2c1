/** The database-backed scraper (`db_scraper.py`): one attempt per page, each page's
    quotes inserted as a batch into the quote store, running totals of added and
    skipped quotes, and the scraping session closed with the status the run ended in.

    The network, the HTML extraction and the points where the run is aborted are
    parameters: `net(k)` answers the `k`-th page's request, `parse` and `nextHref` stand
    for `parse_quotes` and `get_next_page`, and `abort(k)` says whether the processing
    of the `k`-th fetched page is cut short by a keyboard interrupt or by an exception. */
module DbScraper {
  import opened Common
  import opened Web
  import QuoteStore

  const MaxPages: nat := 10
  const BaseUrl := "https://quotes.toscrape.com"

  /** `fetch_page(url)`: a single request; any exception, including the one
      `raise_for_status` raises, comes back as `None`. A reply below 400 or from 600 on
      gives its body; a 4xx or 5xx reply and a transport error give nothing. */
  function FetchPage(resp: Response): (html: Option<string>)
    ensures resp.Unreachable? ==> html.None?
    ensures resp.Reply? && 400 <= resp.status < 600 ==> html.None?
    ensures resp.Reply? && (resp.status < 400 || 600 <= resp.status) ==> html == Some(resp.body)
  {
    if resp.Reply? && !RaisesForStatus(resp.status) then Some(resp.body) else None
  }

  /** What cuts a run short. */
  datatype Abort = Interrupted | Crashed

  datatype Status = Completed | InterruptedStatus | FailedStatus

  /** The row `update_session` writes at the end of a run. */
  datatype Session = Session(pages: nat, added: nat, skipped: nat, status: Status)

  /** The status `main` records: `'completed'` after the loop, `'interrupted'` on a
      keyboard interrupt, `'failed'` on any other exception. */
  function StatusFor(abort: Option<Abort>): (st: Status)
    ensures st == Completed <==> abort.None?
    ensures st == InterruptedStatus <==> abort == Some(Interrupted)
    ensures st == FailedStatus <==> abort == Some(Crashed)
  {
    match abort
    case None => Completed
    case Some(Interrupted) => InterruptedStatus
    case Some(Crashed) => FailedStatus
  }

  /** The totals after inserting the quotes of `pages` into `s` page by page: every
      parsed quote is counted once as added or skipped, the store grew by the added
      ones, it holds every parsed text, and it keeps the schema's constraints. */
  predicate Tallied(s: QuoteStore.Store, parse: string -> seq<Quote>, pages: seq<string>,
                    store: QuoteStore.Store, added: nat, skipped: nat)
  {
    && added + skipped == |Collected(parse, pages)|
    && |store.quotes| == |s.quotes| + added
    && QuoteStore.Texts(store) == QuoteStore.Texts(s) + QuoteStore.BatchTexts(Collected(parse, pages))
    && (QuoteStore.Valid(s) ==> QuoteStore.Valid(store))
  }

  /** Inserting one more page's quotes as a batch keeps the totals right. */
  lemma TalliedSnoc(s: QuoteStore.Store, parse: string -> seq<Quote>, pages: seq<string>,
                    store: QuoteStore.Store, added: nat, skipped: nat, html: string, source: Option<string>)
    requires Tallied(s, parse, pages, store, added, skipped)
    ensures var b := QuoteStore.InsertBatch(store, parse(html), source);
            Tallied(s, parse, pages + [html], b.store, added + b.added, skipped + b.skipped)
  {
    var earlier := Collected(parse, pages);
    var quotes := parse(html);
    var b := QuoteStore.InsertBatch(store, quotes, source);
    QuoteStore.BatchTextsAppend(earlier, quotes);
    CollectedSnoc(parse, pages, html);
    assert QuoteStore.Texts(b.store) == QuoteStore.Texts(s) + QuoteStore.BatchTexts(earlier) + QuoteStore.BatchTexts(quotes);
  }

  /** The store and totals after `main` has inserted the quotes of each fetched page in
      turn, the `i`-th page's quotes with `urls[i]` as their source. */
  datatype Tally = Tally(store: QuoteStore.Store, added: nat, skipped: nat)

  function Ingested(s: QuoteStore.Store, parse: string -> seq<Quote>, urls: seq<string>, pages: seq<string>): (t: Tally)
    requires |pages| <= |urls|
    decreases |pages|
  {
    if |pages| == 0 then Tally(s, 0, 0)
    else
      var n := |pages| - 1;
      var t := Ingested(s, parse, urls, pages[..n]);
      var b := QuoteStore.InsertBatch(t.store, parse(pages[n]), Some(urls[n]));
      Tally(b.store, t.added + b.added, t.skipped + b.skipped)
  }

  /** One more page ingested. */
  lemma IngestedSnocPage(s: QuoteStore.Store, parse: string -> seq<Quote>, urls: seq<string>,
                         pages: seq<string>, html: string)
    requires |pages| < |urls|
    ensures var t := Ingested(s, parse, urls, pages);
            var b := QuoteStore.InsertBatch(t.store, parse(html), Some(urls[|pages|]));
            Ingested(s, parse, urls, pages + [html]) == Tally(b.store, t.added + b.added, t.skipped + b.skipped)
  {
    assert (pages + [html])[..|pages|] == pages;
  }

  /** Whatever the sources, the fold of batch inserts keeps the totals right. */
  lemma {:induction false} IngestedTallied(s: QuoteStore.Store, parse: string -> seq<Quote>, urls: seq<string>,
                                           pages: seq<string>)
    requires |pages| <= |urls|
    ensures var t := Ingested(s, parse, urls, pages);
            Tallied(s, parse, pages, t.store, t.added, t.skipped)
    decreases |pages|
  {
    if |pages| > 0 {
      var n := |pages| - 1;
      var init := pages[..n];
      assert init + [pages[n]] == pages;
      IngestedTallied(s, parse, urls, init);
      var t := Ingested(s, parse, urls, init);
      TalliedSnoc(s, parse, init, t.store, t.added, t.skipped, pages[n], Some(urls[n]));
      IngestedSnocPage(s, parse, urls, init, pages[n]);
    }
  }

  /** The `k`-th page is what the `k`-th single-attempt fetch returned, and its
      processing was not cut short. */
  predicate Kept(net: nat -> Response, abort: nat -> Option<Abort>, pages: seq<string>)
    decreases |pages|
  {
    |pages| == 0 ||
    var n := |pages| - 1;
    Kept(net, abort, pages[..n]) && FetchPage(net(n)) == Some(pages[n]) && abort(n).None?
  }

  lemma KeptSnoc(net: nat -> Response, abort: nat -> Option<Abort>, pages: seq<string>, html: string)
    requires Kept(net, abort, pages)
    requires FetchPage(net(|pages|)) == Some(html) && abort(|pages|).None?
    ensures Kept(net, abort, pages + [html])
  {
    assert (pages + [html])[..|pages|] == pages;
  }

  /** What `Kept` says of each page. */
  lemma {:induction false} KeptAt(net: nat -> Response, abort: nat -> Option<Abort>, pages: seq<string>, k: nat)
    requires Kept(net, abort, pages) && k < |pages|
    ensures FetchPage(net(k)) == Some(pages[k]) && abort(k).None?
    decreases |pages|
  {
    var n := |pages| - 1;
    if k < n {
      KeptAt(net, abort, pages[..n], k);
    }
  }

  /** The status a run ends with, read off what it fetched: an abort can only have
      happened while the last URL's page, fetched but not kept, was processed. */
  function EndStatus(net: nat -> Response, abort: nat -> Option<Abort>, urls: seq<string>, pages: seq<string>)
    : (st: Status)
    ensures st != Completed <==> |pages| < |urls| && FetchPage(net(|pages|)).Some? && abort(|pages|).Some?
    ensures st != Completed ==> st == StatusFor(abort(|pages|))
  {
    if |pages| < |urls| && FetchPage(net(|pages|)).Some? then StatusFor(abort(|pages|)) else Completed
  }

  /** The end of a run: the session row, the store, the URLs requested, and the pages
      whose quotes were inserted. */
  datatype Run = Run(session: Session, store: QuoteStore.Store, urls: seq<string>, pages: seq<string>)

  /** The `while` loop of `main()`, inside its `try`, as far as fetching goes: one
      single-attempt fetch per URL and the next link followed. It ends when a fetch
      fails, when there is no next link, after `MAX_PAGES` URLs, or when the processing
      of a fetched page is cut short, which `stop` reports. Nothing here reads the
      store, so `Scrape` inserts the kept pages' quotes afterwards. */
  method Crawl(net: nat -> Response, abort: nat -> Option<Abort>, nextHref: string -> Option<string>)
    returns (urls: seq<string>, pages: seq<string>, stop: Option<Abort>)
    ensures |urls| <= MaxPages
    ensures |urls| > 0 && urls[0] == BaseUrl
    ensures |urls| - 1 <= |pages| <= |urls|
    ensures FollowsLinks(BaseUrl, urls, pages, nextHref)
    ensures Kept(net, abort, pages)
    ensures stop.Some? ==> |pages| < |urls| && FetchPage(net(|pages|)).Some? && abort(|pages|) == stop
    ensures stop.None? && |pages| < |urls| ==> FetchPage(net(|pages|)).None?
    ensures |pages| == |urls| < MaxPages ==> NextUrl(BaseUrl, nextHref(pages[|pages| - 1])).None?
  {
    urls := [];
    pages := [];
    var currentUrl: Option<string> := Some(BaseUrl);
    while currentUrl.Some? && |urls| < MaxPages
      invariant |urls| == |pages| <= MaxPages
      invariant |urls| == 0 ==> currentUrl == Some(BaseUrl)
      invariant |urls| > 0 ==> urls[0] == BaseUrl
      invariant |urls| > 0 ==> currentUrl == NextUrl(BaseUrl, nextHref(pages[|pages| - 1]))
      invariant FollowsLinks(BaseUrl, urls, pages, nextHref)
      invariant Kept(net, abort, pages)
      decreases MaxPages - |urls|
    {
      var url := currentUrl.value;
      var k := |urls|;
      var earlierUrls := urls;
      urls := urls + [url];
      FollowsLinksSnocUrl(BaseUrl, earlierUrls, pages, nextHref, url);
      var html := FetchPage(net(k));
      if html.None? {
        return urls, pages, None;
      }
      if abort(k).Some? {
        return urls, pages, abort(k);
      }
      var earlier := pages;
      KeptSnoc(net, abort, pages, html.value);
      pages := pages + [html.value];
      FollowsLinksSnocPage(BaseUrl, urls, earlier, nextHref, html.value);
      currentUrl := NextUrl(BaseUrl, nextHref(html.value));
      if currentUrl.None? {
        return urls, pages, None;
      }
    }
    stop := None;
  }

  /** `main()` of `db_scraper.py` on the store `s`: the page loop, each kept page's
      quotes inserted in turn with its URL as their source, and the session row with
      the status the loop ended in. */
  method Scrape(s: QuoteStore.Store, net: nat -> Response, abort: nat -> Option<Abort>,
              parse: string -> seq<Quote>, nextHref: string -> Option<string>)
    returns (run: Run)
    ensures run.session.pages == |run.urls| <= MaxPages
    ensures |run.urls| > 0 && run.urls[0] == BaseUrl
    ensures |run.urls| - 1 <= |run.pages| <= |run.urls|
    ensures FollowsLinks(BaseUrl, run.urls, run.pages, nextHref)
    ensures Kept(net, abort, run.pages)
    ensures Tally(run.store, run.session.added, run.session.skipped) == Ingested(s, parse, run.urls, run.pages)
    ensures Tallied(s, parse, run.pages, run.store, run.session.added, run.session.skipped)
    ensures run.session.status == EndStatus(net, abort, run.urls, run.pages)
    ensures |run.pages| < |run.urls| && run.session.status == Completed ==> FetchPage(net(|run.pages|)).None?
    ensures |run.pages| == |run.urls| < MaxPages ==> NextUrl(BaseUrl, nextHref(run.pages[|run.pages| - 1])).None?
  {
    var urls, pages, stop := Crawl(net, abort, nextHref);
    var tally := Ingested(s, parse, urls, pages);
    IngestedTallied(s, parse, urls, pages);
    run := Run(Session(|urls|, tally.added, tally.skipped, StatusFor(stop)), tally.store, urls, pages);
  }
}
