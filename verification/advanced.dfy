/** The self-contained anti-bot scraper (`advanced_scraper.py`): its own retry handler
    (`max_retries + 1` attempts, backoff capped at 60 s), its own eight-indicator block
    detector, `fetch_page` with its statistics, and the page loop of `main`.

    A request attempt calls `raise_for_status()` before the block check, so a status
    that blocks by itself (403, 429, 503) never reaches the check: blocks are counted
    only for body matches, and every page handed back is free of indicators. The
    network, the jitter draws, the throttler's clock and draws, and the HTML
    extraction (`parse_quotes`, `get_next_page`) are parameters. */
module Advanced {
  import opened Common
  import opened Text
  import opened Web
  import Retry
  import Throttle

  const MaxPages: nat := 5
  const BaseUrl := "https://quotes.toscrape.com"

  // --------------------------------------------------------------- RetryHandler

  /** `RetryHandler(max_retries, base_delay)`: doubling backoff capped at 60 s. */
  function Config(maxRetries: nat, baseDelay: real): (cfg: Retry.RetryConfig)
    ensures cfg.maxRetries == maxRetries && cfg.baseDelay == baseDelay
    ensures cfg.expBase == 2.0 && cfg.maxDelay == 60.0
  {
    Retry.RetryConfig(maxRetries, baseDelay, 60.0, 2.0)
  }

  /** `get_delay(attempt)` with `jitter` the `random.uniform(-1, 1)` draw: never above
      60 s, within 25% of `base * 2^attempt` below the cap, and non-decreasing in the
      attempt for a fixed draw. */
  lemma GetDelayBounds(maxRetries: nat, baseDelay: real, a: nat, b: nat, jitter: real)
    requires baseDelay >= 0.0 && -1.0 <= jitter <= 1.0 && a <= b
    ensures Retry.GetDelay(Config(maxRetries, baseDelay), a, jitter) <= 60.0
    ensures Retry.GetDelay(Config(maxRetries, baseDelay), a, jitter) <= 1.25 * baseDelay * Retry.Pow(2.0, a)
    ensures Retry.GetDelay(Config(maxRetries, baseDelay), a, jitter) >= 0.75 * baseDelay * Retry.Pow(2.0, a)
            || Retry.GetDelay(Config(maxRetries, baseDelay), a, jitter) == 60.0
    ensures Retry.GetDelay(Config(maxRetries, baseDelay), a, jitter)
            <= Retry.GetDelay(Config(maxRetries, baseDelay), b, jitter)
  {
    Retry.GetDelayMonotone(Config(maxRetries, baseDelay), a, b, jitter);
  }

  /** `RetryHandler.execute(func)`: at most `max_retries + 1` calls, the first value
      returned, else the last exception re-raised; a capped backoff after every failed
      call but the last, where a negative length makes `time.sleep` raise `ValueError`. */
  method Execute<T>(maxRetries: nat, baseDelay: real, call: nat -> Attempt<T>, jitter: nat -> real)
    returns (r: Attempt<T>, calls: nat, sleeps: seq<real>)
    ensures 1 <= calls <= maxRetries + 1
    ensures forall k :: 0 <= k < calls - 1 ==>
              call(k).Raised? && Retry.GetDelay(Config(maxRetries, baseDelay), k, jitter(k)) >= 0.0
    ensures call(calls - 1).Returned? ==> r == call(calls - 1)
    ensures call(calls - 1).Raised? && calls == maxRetries + 1 ==> r == call(calls - 1)
    ensures call(calls - 1).Raised? && calls <= maxRetries ==>
              Retry.GetDelay(Config(maxRetries, baseDelay), calls - 1, jitter(calls - 1)) < 0.0 && r == Raised(SleepError)
    ensures |sleeps| == calls - 1
    ensures forall k :: 0 <= k < |sleeps| ==> sleeps[k] == Retry.GetDelay(Config(maxRetries, baseDelay), k, jitter(k))
    ensures forall k :: 0 <= k < |sleeps| ==> 0.0 <= sleeps[k] <= 60.0
  {
    r, calls, sleeps := Retry.ExecuteWithRetry(Config(maxRetries, baseDelay), call, jitter);
  }

  // ------------------------------------------------------------ CaptchaDetector

  /** `CaptchaDetector.INDICATORS`. */
  const Indicators: seq<string> := [
    "captcha", "recaptcha", "hcaptcha", "verify you are human",
    "access denied", "blocked", "unusual traffic", "cloudflare"
  ]

  const BlockedCodes: set<int> := {403, 429, 503}

  /** `CaptchaDetector.is_blocked(status_code, html)`; an empty `html` is falsy and
      stands for `None` too. */
  predicate IsBlocked(status: int, html: string) {
    status in BlockedCodes || (html != "" && AnyIn(Indicators, Lower(html)))
  }

  /** `CaptchaDetector.get_reason(status_code)`. */
  function GetReason(status: int): (reason: string)
    ensures status !in BlockedCodes ==> reason == "Unknown"
    ensures status in BlockedCodes ==> reason != "Unknown"
  {
    if status == 403 then "Access Forbidden"
    else if status == 429 then "Rate Limited"
    else if status == 503 then "Service Unavailable"
    else "Unknown"
  }

  // ----------------------------------------------------------------- fetch_page

  /** One call of `do_request` on the reply the network gives it. */
  function DoRequest(resp: Response): (a: Attempt<string>)
    ensures a.Returned? <==> resp.Reply? && !RaisesForStatus(resp.status) && !IsBlocked(resp.status, resp.body)
    ensures a.Returned? ==> a.value == resp.body
    ensures resp.Reply? && RaisesForStatus(resp.status) ==> a == Raised(HttpError(resp.status))
    ensures a.Raised? && a.error.BlockedError? ==> a.error.reason == "Unknown"
  {
    match resp
    case Unreachable => Raised(TransportError)
    case Reply(status, body) =>
      if RaisesForStatus(status) then Raised(HttpError(status))
      else if IsBlocked(status, body) then Raised(BlockedError(GetReason(status)))
      else Returned(body)
  }

  /** A reply that gets past `raise_for_status` and is then reported blocked: the
      attempts that increment `stats['blocks']`. */
  predicate BlockedReply(resp: Response) {
    resp.Reply? && !RaisesForStatus(resp.status) && IsBlocked(resp.status, resp.body)
  }

  /** Because `raise_for_status` runs first, a reply that counts as a block was matched
      by its body -- never by its status -- and its reason is always "Unknown". */
  lemma BlocksComeFromBodies(resp: Response)
    requires BlockedReply(resp)
    ensures resp.status !in BlockedCodes
    ensures resp.body != "" && AnyIn(Indicators, Lower(resp.body))
    ensures DoRequest(resp) == Raised(BlockedError("Unknown"))
  {
  }

  /** A page `do_request` hands back would pass `main`'s CAPTCHA check. */
  lemma ReturnedPageIsClean(resp: Response)
    requires DoRequest(resp).Returned?
    ensures !IsBlocked(200, DoRequest(resp).value)
  {
  }

  /** The outcome of one `fetch_page` call. */
  datatype Fetch = Fetch(html: Option<string>, throttler: Throttle.Throttler, stats: Stats, attempts: nat)

  /** The attempts of one fetch of `url`: the `k`-th is `do_request` on the `k`-th reply. */
  function Attempts(net: Network, url: string): nat -> Attempt<string> {
    (k: nat) => DoRequest(net(url, k))
  }

  /** `fetch_page(url, ...)`: one throttler wait and one counted request per call,
      however many attempts the retry handler makes; then exactly one of
      successful/failed, paired with `record_success`/`record_error`. A throttler that
      raises in `wait()` propagates its exception before anything is counted. */
  method FetchPage(url: string, t: Throttle.Throttler, stats: Stats, maxRetries: nat, baseDelay: real,
                   net: Network, jitter: nat -> real, clock: Throttle.Clock, draw: real)
    returns (r: Result<Fetch, string>)
    ensures r.Err? <==> Throttle.Wait(t, clock, draw).Err?
    ensures r.Ok? ==>
              var f := r.value;
              var waited := Throttle.Wait(t, clock, draw).value.after;
              && f.stats.requests == stats.requests + 1
              && f.stats.captchas == stats.captchas
              && 1 <= f.attempts <= maxRetries + 1
              && f.stats.blocks == stats.blocks + Count(Replies(net, url, f.attempts), BlockedReply)
              && (forall k :: 0 <= k < f.attempts - 1 ==> DoRequest(net(url, k)).Raised?)
              && (f.html.Some? ==>
                    DoRequest(net(url, f.attempts - 1)) == Returned(f.html.value)
                    && f.stats.successful == stats.successful + 1 && f.stats.failed == stats.failed
                    && f.throttler == Throttle.RecordSuccess(waited))
              && (f.html.None? ==>
                    DoRequest(net(url, f.attempts - 1)).Raised?
                    && (f.attempts == maxRetries + 1
                        || Retry.GetDelay(Config(maxRetries, baseDelay), f.attempts - 1, jitter(f.attempts - 1)) < 0.0)
                    && f.stats.failed == stats.failed + 1 && f.stats.successful == stats.successful
                    && f.throttler == Throttle.RecordError(waited))
  {
    var w := Throttle.Wait(t, clock, draw);
    if w.Err? {
      return Err(w.error);
    }
    var t1 := w.value.after;
    var s1 := stats.(requests := stats.requests + 1);
    var outcome, calls, sleeps := Execute(maxRetries, baseDelay, Attempts(net, url), jitter);
    assert forall k: nat :: Attempts(net, url)(k) == DoRequest(net(url, k));
    // `do_request` bumps the block counter once per attempt that it reports blocked.
    var s2 := s1.(blocks := s1.blocks + Count(Replies(net, url, calls), BlockedReply));
    if outcome.Returned? {
      r := Ok(Fetch(Some(outcome.value), Throttle.RecordSuccess(t1), s2.(successful := s2.successful + 1), calls));
    } else {
      r := Ok(Fetch(None, Throttle.RecordError(t1), s2.(failed := s2.failed + 1), calls));
    }
  }

  // ----------------------------------------------------------------------- main

  /** One `fetch_page` call as `main` makes it: the script's throttler settings, three
      retries from a base delay of 1 s, and draws of `random.uniform` in range. The wait
      never raises, and the outcome is what the network served. */
  method MainFetch(url: string, t: Throttle.Throttler, stats: Stats,
                   net: Network, jitter: nat -> real, clock: Throttle.Clock, draw: real)
    returns (f: Fetch)
    requires t.minDelay == 1.5 && t.maxDelay == 3.0 && t.requestsPerMinute == 20
    requires forall k: nat :: -1.0 <= jitter(k) <= 1.0
    requires 0.0 <= draw <= 1.0
    ensures f.throttler.minDelay == 1.5 && f.throttler.maxDelay == 3.0 && f.throttler.requestsPerMinute == 20
    ensures f.stats.requests == stats.requests + 1 && f.stats.captchas == stats.captchas
    ensures f.html.Some? ==> f.stats.successful == stats.successful + 1 && f.stats.failed == stats.failed
    ensures f.html.Some? ==> Serves(net, url, f.html.value) && !IsBlocked(200, f.html.value)
    ensures f.html.None? ==> f.stats.failed == stats.failed + 1 && f.stats.successful == stats.successful
    ensures f.html.None? ==> FetchFails(net, url)
  {
    Throttle.DelayBounds(t, draw);
    var r := FetchPage(url, t, stats, 3, 1.0, net, jitter, clock, draw);
    f := r.value;
    FetchOutcome(f, url, net, jitter);
    if f.html.Some? {
      ReturnedPageIsClean(net(url, f.attempts - 1));
    }
  }

  /** What `main` ends with: the collected quotes, the statistics, the URLs fetched and
      the pages that came back. */
  datatype Run = Run(quotes: seq<Quote>, stats: Stats, urls: seq<string>, pages: seq<string>)

  /** The first attempt of the four that `fetch_page` makes on `url` which returns,
      returned `page`. */
  predicate Serves(net: Network, url: string, page: string) {
    exists k: nat :: k <= 3 && DoRequest(net(url, k)) == Returned(page)
                     && forall j :: 0 <= j < k ==> DoRequest(net(url, j)).Raised?
  }

  /** All four attempts on `url` raised. */
  predicate FetchFails(net: Network, url: string) {
    forall k :: 0 <= k <= 3 ==> DoRequest(net(url, k)).Raised?
  }

  /** The `i`-th fetch, of `url`, returned `page`. */
  function ServedBy(net: nat -> Network): (nat, string, string) -> bool {
    (i: nat, url: string, page: string) => Serves(net(i), url, page)
  }

  /** What one `fetch_page` of `main` (three retries, base delay 1 s) tells about the
      network: a page is the first attempt that returned, and no page means that all
      four attempts raised, since a draw of `random.uniform(-1, 1)` never makes the
      backoff negative. */
  lemma FetchOutcome(f: Fetch, url: string, net: Network, jitter: nat -> real)
    requires 1 <= f.attempts <= 4
    requires forall k :: 0 <= k < f.attempts - 1 ==> DoRequest(net(url, k)).Raised?
    requires f.html.Some? ==> DoRequest(net(url, f.attempts - 1)) == Returned(f.html.value)
    requires f.html.None? ==>
               DoRequest(net(url, f.attempts - 1)).Raised?
               && (f.attempts == 4 || Retry.GetDelay(Config(3, 1.0), f.attempts - 1, jitter(f.attempts - 1)) < 0.0)
    requires forall k: nat :: -1.0 <= jitter(k) <= 1.0
    ensures f.html.Some? ==> Serves(net, url, f.html.value)
    ensures f.html.None? ==> FetchFails(net, url)
  {
    if f.html.None? {
      Retry.BackoffNonNegative(Config(3, 1.0), f.attempts - 1, jitter(f.attempts - 1));
      assert f.attempts == 4;
    }
  }

  /** One pass of `main`'s page loop on `url`, the `k`-th URL: fetch it, stop on no page
      (the CAPTCHA branch cannot fire), else keep the page and extend the quotes. The
      crawl so far stays linked and served, and its counters stay in step. */
  method Visit(net: nat -> Network, jitter: nat -> real, clock: Throttle.Clock, draw: real,
               parse: string -> seq<Quote>, nextHref: string -> Option<string>,
               t: Throttle.Throttler, stats: Stats, quotes: seq<Quote>, urls: seq<string>, pages: seq<string>,
               url: string)
    returns (t2: Throttle.Throttler, stats2: Stats, quotes2: seq<Quote>, urls2: seq<string>, pages2: seq<string>)
    requires forall k: nat :: -1.0 <= jitter(k) <= 1.0
    requires 0.0 <= draw <= 1.0
    requires t.minDelay == 1.5 && t.maxDelay == 3.0 && t.requestsPerMinute == 20
    requires |urls| == |pages| && stats.requests == |urls| && stats.successful == |pages|
    requires |urls| > 0 ==> nextHref(pages[|pages| - 1]).Some? && url == BaseUrl + nextHref(pages[|pages| - 1]).value
    requires FollowsLinks(BaseUrl, urls, pages, nextHref)
    requires Served(ServedBy(net), urls, pages)
    requires quotes == Collected(parse, pages)
    ensures t2.minDelay == 1.5 && t2.maxDelay == 3.0 && t2.requestsPerMinute == 20
    ensures urls2 == urls + [url]
    ensures |pages2| == |pages| || |pages2| == |pages| + 1
    ensures stats2.requests == |urls2| && stats2.captchas == stats.captchas
    ensures stats2.successful == |pages2| && stats2.failed == stats.failed + |urls2| - |pages2|
    ensures FollowsLinks(BaseUrl, urls2, pages2, nextHref)
    ensures Served(ServedBy(net), urls2, pages2)
    ensures quotes2 == Collected(parse, pages2)
    ensures |pages2| == |pages| ==> FetchFails(net(|urls|), url)
  {
    var k := |urls|;
    var f := MainFetch(url, t, stats, net(k), jitter, clock, draw);
    t2, stats2 := f.throttler, f.stats;
    urls2 := urls + [url];
    FollowsLinksSnocUrl(BaseUrl, urls, pages, nextHref, url);
    ServedSnocUrl(ServedBy(net), urls, pages, url);
    if f.html.None? {
      return t2, stats2, quotes, urls2, pages;
    }
    var html := f.html.value;
    if IsBlocked(200, html) {
      // `main`'s CAPTCHA branch (count a CAPTCHA and stop) is unreachable.
      assert false;
    }
    CollectedSnoc(parse, pages, html);
    pages2 := pages + [html];
    FollowsLinksSnocPage(BaseUrl, urls2, pages, nextHref, html);
    assert ServedBy(net)(k, urls2[k], html);
    ServedSnocPage(ServedBy(net), urls2, pages, html);
    quotes2 := quotes + parse(html);
  }

  /** The page loop of `main`: at most `MAX_PAGES` fetches from `BASE_URL`, following
      `BASE_URL + href`; it stops at a failed fetch (keeping what it has), at a CAPTCHA
      page, or when a page has no next link. `net(i)` and `jitter(i)` serve the `i`-th
      fetch, and `clocks(i)`/`draws(i)` are its throttler readings. The draws are those
      of `random.uniform`: in [-1, 1] for the backoff and a fraction in [0, 1] of the
      throttler's delay range. */
  method Scrape(net: nat -> Network, jitter: nat -> nat -> real, clocks: nat -> Throttle.Clock, draws: nat -> real,
              parse: string -> seq<Quote>, nextHref: string -> Option<string>)
    returns (run: Run)
    requires forall i: nat, k: nat :: -1.0 <= jitter(i)(k) <= 1.0
    requires forall i: nat :: 0.0 <= draws(i) <= 1.0
    ensures |run.urls| <= MaxPages
    ensures run.stats.requests == |run.urls|
    ensures run.stats.captchas == 0
    ensures run.stats.successful == |run.pages| && run.stats.failed == |run.urls| - |run.pages|
    ensures |run.urls| - 1 <= |run.pages| <= |run.urls|
    ensures |run.urls| > 0 && run.urls[0] == BaseUrl
    ensures FollowsLinks(BaseUrl, run.urls, run.pages, nextHref)
    ensures Served(ServedBy(net), run.urls, run.pages)
    ensures |run.pages| < |run.urls| ==> FetchFails(net(|run.pages|), run.urls[|run.pages|])
    ensures run.quotes == Collected(parse, run.pages)
    ensures |run.pages| == |run.urls| < MaxPages ==> NextUrl(BaseUrl, nextHref(run.pages[|run.pages| - 1])).None?
  {
    var t := Throttle.New(1.5, 3.0, 20);
    var stats := NoStats;
    var quotes: seq<Quote> := [];
    var urls: seq<string> := [];
    var pages: seq<string> := [];
    var currentUrl: Option<string> := Some(BaseUrl);
    var pageNumber: nat := 1;
    while currentUrl.Some? && pageNumber <= MaxPages
      invariant pageNumber >= 1 && |urls| == |pages| == pageNumber - 1 <= MaxPages
      invariant t.minDelay == 1.5 && t.maxDelay == 3.0 && t.requestsPerMinute == 20
      invariant stats.requests == |urls| && stats.captchas == 0
      invariant stats.successful == |pages| && stats.failed == 0
      invariant |urls| == 0 ==> currentUrl == Some(BaseUrl)
      invariant |urls| > 0 ==> urls[0] == BaseUrl
      invariant |urls| > 0 ==> currentUrl == NextUrl(BaseUrl, nextHref(pages[|pages| - 1]))
      invariant FollowsLinks(BaseUrl, urls, pages, nextHref)
      invariant Served(ServedBy(net), urls, pages)
      invariant quotes == Collected(parse, pages)
      decreases MaxPages + 1 - pageNumber
    {
      var k := |urls|;
      t, stats, quotes, urls, pages :=
        Visit(net, jitter(k), clocks(k), draws(k), parse, nextHref, t, stats, quotes, urls, pages, currentUrl.value);
      if |pages| == k {
        return Run(quotes, stats, urls, pages);
      }
      var next := nextHref(pages[k]);
      if next.Some? && next.value != "" {
        currentUrl := Some(BaseUrl + next.value);
        pageNumber := pageNumber + 1;
      } else {
        return Run(quotes, stats, urls, pages);
      }
    }
    run := Run(quotes, stats, urls, pages);
  }
}
