/** The function-based anti-bot scraper (`final_antibot_scraper.py`): a four-indicator
    block check made before `raise_for_status`, `fetch_with_retry` with `max_retries`
    attempts (not one more) and `2^attempt + uniform(0, 1)` backoff, the class-level
    `Stats` counters, and the page loop of `main`.

    The network, the backoff draws and the pre-request delays are parameters; HTML
    extraction is the pair of oracles `parse` and `nextHref`. */
module Final {
  import opened Common
  import opened Text
  import opened Web
  import Retry

  const MaxPages: nat := 5
  const BaseUrl := "https://quotes.toscrape.com"

  /** `block_indicators` of `is_blocked`. */
  const Indicators: seq<string> := ["captcha", "blocked", "access denied", "unusual traffic"]

  const BlockedCodes: set<int> := {403, 429, 503}

  /** `is_blocked(status_code, html)`: the body is lowered and searched whatever it is. */
  predicate IsBlocked(status: int, html: string) {
    status in BlockedCodes || AnyIn(Indicators, Lower(html))
  }

  /** What one attempt of `fetch_with_retry` comes to. */
  datatype Step = Blocked | Failed | Succeeded(text: string)

  /** One attempt on the reply the network gives it: the block check first, then
      `raise_for_status`; a transport error is an exception like an HTTP error. */
  function Classify(resp: Response): (s: Step)
    ensures s.Succeeded? <==> resp.Reply? && !IsBlocked(resp.status, resp.body) && !RaisesForStatus(resp.status)
    ensures s.Succeeded? ==> s.text == resp.body
    ensures s.Blocked? <==> resp.Reply? && IsBlocked(resp.status, resp.body)
  {
    match resp
    case Unreachable => Failed
    case Reply(status, body) =>
      if IsBlocked(status, body) then Blocked
      else if RaisesForStatus(status) then Failed
      else Succeeded(body)
  }

  /** Because the block check comes first, 403, 429 and 503 count as blocks whatever
      the body, while any other error status reaches the exception path unless its body
      carries an indicator. */
  lemma StatusRouting(status: int, body: string)
    ensures status in BlockedCodes ==> Classify(Reply(status, body)) == Blocked
    ensures status !in BlockedCodes && RaisesForStatus(status) && !AnyIn(Indicators, Lower(body))
            ==> Classify(Reply(status, body)) == Failed
    ensures status !in BlockedCodes && AnyIn(Indicators, Lower(body)) ==> Classify(Reply(status, body)) == Blocked
  {
  }

  /** `html.lower()` maps U+212A KELVIN SIGN to an ASCII `k`, so a body that spells
      "blocked" with it is a block even under status 200. */
  lemma KelvinSignBlocks()
    ensures IsBlocked(200, "bloc" + [Kelvin] + "ed")
  {
    var body := "bloc" + [Kelvin] + "ed";
    assert Lower(body) == "blocked";
    assert MatchAt(Lower(body), Indicators[1], 0);
  }

  predicate IsBlockedStep(resp: Response) { Classify(resp).Blocked? }
  predicate IsFailedStep(resp: Response) { Classify(resp).Failed? }

  /** `(2 ** attempt) + random.uniform(0, 1)` for the draw `u`. */
  function Backoff(attempt: nat, u: real): (w: real)
    ensures 0.0 <= u <= 1.0 ==> Retry.Pow(2.0, attempt) <= w <= Retry.Pow(2.0, attempt) + 1.0
  {
    Retry.Pow(2.0, attempt) + u
  }

  /** Backoff waits grow with the attempt number when the draws are in range. */
  lemma BackoffGrows(a: nat, ua: real, b: nat, ub: real)
    requires a < b && 0.0 <= ua <= 1.0 && 0.0 <= ub <= 1.0
    ensures Backoff(a, ua) <= Backoff(b, ub)
  {
    Retry.PowMonotone(2.0, a + 1, b);
    assert Retry.Pow(2.0, a + 1) == 2.0 * Retry.Pow(2.0, a);
    Retry.PowAtLeastOne(2.0, a);
  }

  /** The counter an attempt moves: `successful`, `blocks` or `failed`. */
  function Record(s: Stats, step: Step): (t: Stats)
    ensures t.requests == s.requests && t.captchas == s.captchas
  {
    match step
    case Succeeded(_) => s.(successful := s.successful + 1)
    case Blocked => s.(blocks := s.blocks + 1)
    case Failed => s.(failed := s.failed + 1)
  }

  /** After `n + 1` attempts the block and failure counters have moved once for each
      blocked and each failed reply among them. */
  lemma RecordCounts(stats: Stats, after: Stats, net: Network, url: string, n: nat)
    requires after.blocks == stats.blocks + Count(Replies(net, url, n), IsBlockedStep)
    requires after.failed == stats.failed + Count(Replies(net, url, n), IsFailedStep)
    ensures var t := Record(after, Classify(net(url, n)));
            && t.blocks == stats.blocks + Count(Replies(net, url, n + 1), IsBlockedStep)
            && t.failed == stats.failed + Count(Replies(net, url, n + 1), IsFailedStep)
            && t.successful == after.successful + (if Classify(net(url, n)).Succeeded? then 1 else 0)
  {
    CountRepliesStep(net, url, n, IsBlockedStep);
    CountRepliesStep(net, url, n, IsFailedStep);
  }

  /** One attempt of `fetch_with_retry`: the reply is classified and its counter moved,
      so the counters tally the first `n + 1` replies. */
  method TryOnce(stats: Stats, after: Stats, net: Network, url: string, n: nat)
    returns (step: Step, next: Stats)
    requires after.blocks == stats.blocks + Count(Replies(net, url, n), IsBlockedStep)
    requires after.failed == stats.failed + Count(Replies(net, url, n), IsFailedStep)
    ensures step == Classify(net(url, n))
    ensures next.requests == after.requests && next.captchas == after.captchas
    ensures next.successful == after.successful + (if step.Succeeded? then 1 else 0)
    ensures next.blocks == stats.blocks + Count(Replies(net, url, n + 1), IsBlockedStep)
    ensures next.failed == stats.failed + Count(Replies(net, url, n + 1), IsFailedStep)
  {
    step := Classify(net(url, n));
    RecordCounts(stats, after, net, url, n);
    next := Record(after, step);
  }

  /** `fetch_with_retry(url, max_retries)`: the request counter moves once per call, even
      when `max_retries` is 0 and nothing is sent; each attempt is a success (returned at
      once), a block or a failure, and a block or failure sleeps and retries while
      `attempt < max_retries - 1`. `u(k)` is the backoff draw after attempt `k`. */
  method FetchWithRetry(url: string, stats: Stats, maxRetries: nat, net: Network, u: nat -> real)
    returns (html: Option<string>, after: Stats, attempts: nat, sleeps: seq<real>)
    ensures after.requests == stats.requests + 1
    ensures after.captchas == stats.captchas
    ensures attempts <= maxRetries
    ensures maxRetries == 0 ==> attempts == 0 && html.None?
    ensures forall k :: 0 <= k < attempts - 1 ==> !Classify(net(url, k)).Succeeded?
    ensures html.Some? ==> attempts >= 1 && Classify(net(url, attempts - 1)) == Succeeded(html.value)
    ensures html.Some? ==> after.successful == stats.successful + 1
    ensures html.None? ==> attempts == maxRetries && after.successful == stats.successful
    ensures html.None? && attempts > 0 ==> !Classify(net(url, attempts - 1)).Succeeded?
    ensures after.blocks == stats.blocks + Count(Replies(net, url, attempts), IsBlockedStep)
    ensures after.failed == stats.failed + Count(Replies(net, url, attempts), IsFailedStep)
    ensures |sleeps| == if attempts == 0 then 0 else attempts - 1
    ensures forall k :: 0 <= k < |sleeps| ==> sleeps[k] == Backoff(k, u(k))
  {
    after := stats.(requests := stats.requests + 1);
    attempts := 0;
    sleeps := [];
    var attempt: nat := 0;
    while attempt < maxRetries
      invariant attempt <= maxRetries && attempts == attempt
      invariant maxRetries > 0 ==> attempt < maxRetries
      invariant after.requests == stats.requests + 1 && after.captchas == stats.captchas
      invariant after.successful == stats.successful
      invariant forall k :: 0 <= k < attempt ==> !Classify(net(url, k)).Succeeded?
      invariant after.blocks == stats.blocks + Count(Replies(net, url, attempt), IsBlockedStep)
      invariant after.failed == stats.failed + Count(Replies(net, url, attempt), IsFailedStep)
      invariant |sleeps| == attempt
      invariant forall k :: 0 <= k < |sleeps| ==> sleeps[k] == Backoff(k, u(k))
      decreases maxRetries - attempt
    {
      var step;
      step, after := TryOnce(stats, after, net, url, attempt);
      attempts := attempt + 1;
      if step.Succeeded? {
        return Some(step.text), after, attempts, sleeps;
      }
      // A block returns at once on the last attempt; a failure there ends the `for`
      // loop, which returns None just the same. Otherwise both sleep and retry.
      if attempt == maxRetries - 1 {
        return None, after, attempts, sleeps;
      }
      sleeps := sleeps + [Backoff(attempt, u(attempt))];
      attempt := attempt + 1;
    }
    html := None;
  }

  // ----------------------------------------------------------------------- main

  /** What `main` ends with: the collected quotes, the statistics, the URLs fetched and
      the pages that came back. */
  datatype Run = Run(quotes: seq<Quote>, stats: Stats, urls: seq<string>, pages: seq<string>)

  /** The first successful one of the three attempts on `url` returned `page`. */
  predicate Serves(net: Network, url: string, page: string) {
    exists k: nat :: k < 3 && Classify(net(url, k)) == Succeeded(page)
                     && forall j :: 0 <= j < k ==> !Classify(net(url, j)).Succeeded?
  }

  /** None of the three attempts on `url` succeeded. */
  predicate FetchFails(net: Network, url: string) {
    forall k :: 0 <= k < 3 ==> !Classify(net(url, k)).Succeeded?
  }

  /** `fetch_page(url)`: a `smart_delay` sleep, left to the environment, then
      `fetch_with_retry(url)` with its default of three attempts. A page comes back
      exactly when one of the three attempts succeeds, and then it is the first
      successful attempt's. */
  method FetchPage(url: string, stats: Stats, net: Network, u: nat -> real)
    returns (html: Option<string>, after: Stats)
    ensures after.requests == stats.requests + 1 && after.captchas == stats.captchas
    ensures after.successful == if html.Some? then stats.successful + 1 else stats.successful
    ensures html.Some? ==> Serves(net, url, html.value)
    ensures html.None? ==> FetchFails(net, url)
  {
    var attempts, sleeps;
    html, after, attempts, sleeps := FetchWithRetry(url, stats, 3, net, u);
    if html.Some? {
      assert Classify(net(url, attempts - 1)) == Succeeded(html.value);
    }
  }

  /** The `i`-th fetch of `url` returned `page` on one of its three attempts. */
  function ServedBy(net: nat -> Network): (nat, string, string) -> bool {
    (i: nat, url: string, page: string) => Serves(net(i), url, page)
  }

  /** A served page passed the block check, so it carries no indicator. */
  lemma ServedPagesClean(net: nat -> Network, urls: seq<string>, pages: seq<string>)
    requires |pages| <= |urls| && Served(ServedBy(net), urls, pages)
    ensures forall i :: 0 <= i < |pages| ==> !IsBlocked(200, pages[i])
  {
    forall i: nat | i < |pages|
      ensures !IsBlocked(200, pages[i])
    {
      ServedEach(ServedBy(net), urls, pages, i);
      assert Serves(net(i), urls[i], pages[i]);
      var w: nat :| w < 3 && Classify(net(i)(urls[i], w)) == Succeeded(pages[i]);
    }
  }

  /** The page loop of `main`: `fetch_page` (a `smart_delay` sleep, then
      `fetch_with_retry` with three attempts) for at most `MAX_PAGES` pages from
      `BASE_URL`, following `BASE_URL + href`, stopping at a failed fetch or a page
      without a next link. `net(i)` and `u(i)` serve the `i`-th fetch. */
  method Crawl(net: nat -> Network, u: nat -> nat -> real, nextHref: string -> Option<string>)
    returns (stats: Stats, urls: seq<string>, pages: seq<string>)
    ensures |urls| <= MaxPages
    ensures stats.requests == |urls|
    ensures stats.captchas == 0
    ensures stats.successful == |pages|
    ensures |urls| - 1 <= |pages| <= |urls|
    ensures |urls| > 0 && urls[0] == BaseUrl
    ensures FollowsLinks(BaseUrl, urls, pages, nextHref)
    ensures Served(ServedBy(net), urls, pages)
    ensures |pages| < |urls| ==> FetchFails(net(|pages|), urls[|pages|])
    ensures |pages| == |urls| < MaxPages ==> NextUrl(BaseUrl, nextHref(pages[|pages| - 1])).None?
  {
    stats := NoStats;
    urls := [];
    pages := [];
    var currentUrl: Option<string> := Some(BaseUrl);
    var pageNumber: nat := 1;
    while currentUrl.Some? && pageNumber <= MaxPages
      invariant pageNumber >= 1 && |urls| == |pages| == pageNumber - 1 <= MaxPages
      invariant stats.requests == |urls| && stats.captchas == 0
      invariant stats.successful == |pages|
      invariant |urls| == 0 ==> currentUrl == Some(BaseUrl)
      invariant |urls| > 0 ==> urls[0] == BaseUrl
      invariant |urls| > 0 ==> currentUrl == NextUrl(BaseUrl, nextHref(pages[|pages| - 1]))
      invariant FollowsLinks(BaseUrl, urls, pages, nextHref)
      invariant Served(ServedBy(net), urls, pages)
      decreases MaxPages + 1 - pageNumber
    {
      var url := currentUrl.value;
      var k := |urls|;
      var html, after := FetchPage(url, stats, net(k), u(k));
      stats := after;
      var earlierUrls := urls;
      urls := urls + [url];
      FollowsLinksSnocUrl(BaseUrl, earlierUrls, pages, nextHref, url);
      ServedSnocUrl(ServedBy(net), earlierUrls, pages, url);
      if html.None? {
        return stats, urls, pages;
      }
      var earlier := pages;
      pages := pages + [html.value];
      FollowsLinksSnocPage(BaseUrl, urls, earlier, nextHref, html.value);
      assert ServedBy(net)(k, urls[k], html.value);
      ServedSnocPage(ServedBy(net), urls, earlier, html.value);
      var next := nextHref(html.value);
      if next.Some? && next.value != "" {
        currentUrl := Some(BaseUrl + next.value);
        pageNumber := pageNumber + 1;
      } else {
        return stats, urls, pages;
      }
    }
  }

  /** `main()`: the page loop, with each fetched page's quotes appended to `all_quotes`
      in page order. Nothing in the loop reads `all_quotes`, so they are collected from
      the pages once the loop is over. */
  method Scrape(net: nat -> Network, u: nat -> nat -> real, parse: string -> seq<Quote>, nextHref: string -> Option<string>)
    returns (run: Run)
    ensures |run.urls| <= MaxPages
    ensures run.stats.requests == |run.urls|
    ensures run.stats.captchas == 0
    ensures run.stats.successful == |run.pages|
    ensures |run.urls| - 1 <= |run.pages| <= |run.urls|
    ensures |run.urls| > 0 && run.urls[0] == BaseUrl
    ensures FollowsLinks(BaseUrl, run.urls, run.pages, nextHref)
    ensures Served(ServedBy(net), run.urls, run.pages)
    ensures |run.pages| < |run.urls| ==> FetchFails(net(|run.pages|), run.urls[|run.pages|])
    ensures run.quotes == Collected(parse, run.pages)
    ensures |run.pages| == |run.urls| < MaxPages ==> NextUrl(BaseUrl, nextHref(run.pages[|run.pages| - 1])).None?
  {
    var stats, urls, pages := Crawl(net, u, nextHref);
    run := Run(Collected(parse, pages), stats, urls, pages);
  }
}
