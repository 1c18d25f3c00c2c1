/** What the scrapers see of HTTP and of the pages they crawl: one transport reply
    per `requests.get`, the exceptions it can raise, the statistics dictionary, the
    extracted quote records and the next-page link. */
module Web {
  import opened Common

  /** The outcome of one `requests.get`: a reply, or a connection/timeout error. */
  datatype Response = Reply(status: int, body: string) | Unreachable

  /** The exceptions a fetch attempt can end in. */
  datatype Error =
    | TransportError                 // ConnectionError, Timeout, other RequestException
    | HttpError(status: int)         // raised by raise_for_status
    | BlockedError(reason: string)   // raised by a scraper after its block check
    | SleepError                     // ValueError of time.sleep on a negative length
    | NoException                    // TypeError of `raise None`, when nothing was attempted

  /** One call of a retried function: a return value, or the exception it raised. */
  datatype Attempt<+T> = Returned(value: T) | Raised(error: Error)

  /** The network as seen by a script: the reply to the `n`-th request it issues for `url`. */
  type Network = (string, nat) -> Response

  /** The replies of the first `n` attempts of one fetch of `url`. */
  function Replies(net: Network, url: string, n: nat): (rs: seq<Response>)
    ensures |rs| == n
    ensures forall k :: 0 <= k < n ==> rs[k] == net(url, k)
  {
    seq(n, (k: nat) => net(url, k))
  }

  /** Counting over one more reply. */
  lemma CountRepliesStep(net: Network, url: string, n: nat, p: Response -> bool)
    ensures Count(Replies(net, url, n + 1), p) == Count(Replies(net, url, n), p) + (if p(net(url, n)) then 1 else 0)
  {
    assert Replies(net, url, n + 1)[..n] == Replies(net, url, n);
  }

  /** `Response.raise_for_status()` raises exactly for client (4xx) and server (5xx) errors. */
  predicate RaisesForStatus(status: int) {
    400 <= status < 600
  }

  /** One quote record as produced by `parse_quotes`. */
  datatype Quote = Quote(text: string, author: string, tags: seq<string>)

  /** The statistics kept by the anti-bot scrapers. */
  datatype Stats = Stats(requests: nat, successful: nat, failed: nat, captchas: nat, blocks: nat)

  const NoStats := Stats(0, 0, 0, 0, 0)

  /** `f"{BASE_URL}{next_page}" if next_page else None`: an empty href counts as no link. */
  function NextUrl(baseUrl: string, href: Option<string>): (r: Option<string>)
    ensures r.Some? <==> href.Some? && href.value != ""
    ensures r.Some? ==> r.value == baseUrl + href.value
  {
    if href.Some? && href.value != "" then Some(baseUrl + href.value) else None
  }

  /** The quotes of the given pages, page after page (`all_quotes.extend(...)`). */
  function Collected(parse: string -> seq<Quote>, bodies: seq<string>): seq<Quote>
    decreases |bodies|
  {
    if |bodies| == 0 then [] else Collected(parse, bodies[..|bodies| - 1]) + parse(bodies[|bodies| - 1])
  }

  lemma CollectedSnoc(parse: string -> seq<Quote>, bodies: seq<string>, b: string)
    ensures Collected(parse, bodies + [b]) == Collected(parse, bodies) + parse(b)
  {
    assert (bodies + [b])[..|bodies|] == bodies;
  }

  /** Every URL after the first is the base URL followed by the link found on the page
      fetched before it (`f"{BASE_URL}{next_page}"`). */
  predicate FollowsLinks(baseUrl: string, urls: seq<string>, pages: seq<string>, nextHref: string -> Option<string>)
    requires |urls| <= |pages| + 1
  {
    forall j :: 0 <= j < |urls| - 1 ==>
      nextHref(pages[j]).Some? && urls[j + 1] == baseUrl + nextHref(pages[j]).value
  }

  lemma FollowsLinksSnocUrl(baseUrl: string, urls: seq<string>, pages: seq<string>, nextHref: string -> Option<string>, url: string)
    requires |urls| == |pages| && FollowsLinks(baseUrl, urls, pages, nextHref)
    requires |urls| > 0 ==> nextHref(pages[|pages| - 1]).Some? && url == baseUrl + nextHref(pages[|pages| - 1]).value
    ensures FollowsLinks(baseUrl, urls + [url], pages, nextHref)
  {
    var u := urls + [url];
    forall j | 0 <= j < |u| - 1
      ensures nextHref(pages[j]).Some? && u[j + 1] == baseUrl + nextHref(pages[j]).value
    {
      if j + 1 < |urls| {
        assert u[j + 1] == urls[j + 1];
      }
    }
  }

  lemma FollowsLinksSnocPage(baseUrl: string, urls: seq<string>, pages: seq<string>, nextHref: string -> Option<string>, html: string)
    requires |urls| == |pages| + 1 && FollowsLinks(baseUrl, urls, pages, nextHref)
    ensures FollowsLinks(baseUrl, urls, pages + [html], nextHref)
  {
    var p := pages + [html];
    forall j | 0 <= j < |urls| - 1
      ensures nextHref(p[j]).Some? && urls[j + 1] == baseUrl + nextHref(p[j]).value
    {
      assert p[j] == pages[j];
    }
  }

  /** Each page is what the fetch of its URL returned, where `servedAt(i, url, page)`
      says that the `i`-th fetch, of `url`, returned `page`. */
  predicate Served(servedAt: (nat, string, string) -> bool, urls: seq<string>, pages: seq<string>)
    requires |pages| <= |urls|
    decreases |pages|
  {
    |pages| == 0 ||
    var n := |pages| - 1;
    Served(servedAt, urls, pages[..n]) && servedAt(n, urls[n], pages[n])
  }

  /** What `Served` says of each page. */
  lemma {:induction false} ServedEach(servedAt: (nat, string, string) -> bool, urls: seq<string>, pages: seq<string>, i: nat)
    requires |pages| <= |urls| && Served(servedAt, urls, pages) && i < |pages|
    ensures servedAt(i, urls[i], pages[i])
    decreases |pages|
  {
    var n := |pages| - 1;
    if i < n {
      ServedEach(servedAt, urls, pages[..n], i);
    }
  }

  /** Fetching a further URL leaves the served pages served. */
  lemma {:induction false} ServedSnocUrl(servedAt: (nat, string, string) -> bool, urls: seq<string>, pages: seq<string>, url: string)
    requires |pages| <= |urls| && Served(servedAt, urls, pages)
    ensures Served(servedAt, urls + [url], pages)
    decreases |pages|
  {
    if |pages| > 0 {
      var n := |pages| - 1;
      ServedSnocUrl(servedAt, urls, pages[..n], url);
      assert (urls + [url])[n] == urls[n];
    }
  }

  /** A page served by the fetch of the last URL extends the served pages. */
  lemma ServedSnocPage(servedAt: (nat, string, string) -> bool, urls: seq<string>, pages: seq<string>, html: string)
    requires |urls| == |pages| + 1 && Served(servedAt, urls, pages)
    requires servedAt(|pages|, urls[|pages|], html)
    ensures Served(servedAt, urls, pages + [html])
  {
    assert (pages + [html])[..|pages|] == pages;
  }
}
