/** `WebScraper.fetch_page` of the basic scraper (`src/scraper.py`): a relative path is
    put under `BASE_URL`, the page is requested and `raise_for_status` checked, and any
    request exception retries the same URL after a pause and a user-agent rotation, up
    to `RETRY_ATTEMPTS` retries.

    The network is the parameter `net`: `net(url, k)` is the reply to the `k`-th request
    of the fetch. What `fetch_page` does besides requesting is recorded as a trace of
    events; the pause length and the rotated agent are left to the environment. */
module WebScraper {
  import opened Common
  import opened Text
  import opened Web

  /** `BASE_URL` and `RETRY_ATTEMPTS` of the settings module. */
  const BaseUrl := "https://quotes.toscrape.com"
  const RetryAttempts: int := 3

  /** A URL starting with `/` is a path under the base URL; anything else is kept. */
  function Normalize(url: string): (full: string)
    ensures |url| > 0 && url[0] == '/' ==> full == BaseUrl + url
    ensures !(|url| > 0 && url[0] == '/') ==> full == url
  {
    if StartsWith(url, "/") then BaseUrl + url else url
  }

  /** Normalising twice is normalising once: the retries, which pass the already
      completed URL back in, request the same URL as the first call. */
  lemma NormalizeIdempotent(url: string)
    ensures Normalize(Normalize(url)) == Normalize(url)
    ensures |Normalize(url)| > 0 ==> Normalize(url)[0] != '/'
  {
    if |url| > 0 && url[0] == '/' {
      assert Normalize(url)[0] == BaseUrl[0];
    }
  }

  /** A request that returns a reply whose status `raise_for_status` accepts. */
  predicate Fetched(resp: Response) {
    resp.Reply? && !RaisesForStatus(resp.status)
  }

  /** What `fetch_page` does apart from its result. */
  datatype Event = Request(url: string) | Pause | Rotate

  /** The trace of `n` requests of `url`: one request, then before each retry a pause
      (`random_delay(2, 4)`) and a user-agent rotation. */
  function Rounds(url: string, n: nat): (t: seq<Event>)
    requires n >= 1
    ensures |t| == 3 * n - 2
    ensures t[0] == Request(url) && t[|t| - 1] == Request(url)
    decreases n
  {
    if n == 1 then [Request(url)]
    else [Request(url), Pause, Rotate] + Rounds(url, n - 1)
  }

  predicate IsRequest(e: Event) { e.Request? }
  predicate IsRotate(e: Event) { e.Rotate? }

  /** The most requests `fetch_page(url, retry_count)` makes: one, and one more for each
      retry count from `retry_count` up to `RETRY_ATTEMPTS - 1`. */
  function MaxCalls(retryCount: int): (m: nat)
    ensures m >= 1
    ensures retryCount >= 0 ==> m <= RetryAttempts + 1
  {
    if retryCount < RetryAttempts then RetryAttempts - retryCount + 1 else 1
  }

  /** The result of a call of `fetch_page`: the page text or `None`, the number of
      requests it made, and its trace. */
  datatype Outcome = Outcome(html: Option<string>, calls: nat, trace: seq<Event>)

  /** `fetch_page(url, retry_count)`, whose first request is the `k`-th of the fetch. */
  function FetchFrom(url: string, retryCount: int, net: Network, k: nat): (r: Outcome)
    ensures 1 <= r.calls <= MaxCalls(retryCount)
    ensures forall j :: k <= j < k + r.calls - 1 ==> !Fetched(net(Normalize(url), j))
    ensures r.html.Some? <==> Fetched(net(Normalize(url), k + r.calls - 1))
    ensures r.html.Some? ==> r.html.value == net(Normalize(url), k + r.calls - 1).body
    ensures r.html.None? ==> r.calls == MaxCalls(retryCount)
    decreases RetryAttempts - retryCount
  {
    var full := Normalize(url);
    var resp := net(full, k);
    if Fetched(resp) then Outcome(Some(resp.body), 1, [Request(full)])
    else if retryCount < RetryAttempts then
      NormalizeIdempotent(url);
      var rest := FetchFrom(full, retryCount + 1, net, k + 1);
      Outcome(rest.html, rest.calls + 1, [Request(full), Pause, Rotate] + rest.trace)
    else Outcome(None, 1, [Request(full)])
  }

  /** The trace of a call: `fetch_page` requests the completed URL, and pauses and
      rotates the user agent before each retry. */
  lemma {:induction false} FetchTrace(url: string, retryCount: int, net: Network, k: nat)
    ensures var r := FetchFrom(url, retryCount, net, k);
            r.trace == Rounds(Normalize(url), r.calls)
    decreases RetryAttempts - retryCount
  {
    var full := Normalize(url);
    if !Fetched(net(full, k)) && retryCount < RetryAttempts {
      NormalizeIdempotent(url);
      FetchTrace(full, retryCount + 1, net, k + 1);
      RetryTrace(url, retryCount, net, k);
    }
  }

  /** A retry puts a request, a pause and a rotation before the rest of the trace. */
  lemma RetryTrace(url: string, retryCount: int, net: Network, k: nat)
    requires !Fetched(net(Normalize(url), k)) && retryCount < RetryAttempts
    requires var rest := FetchFrom(Normalize(url), retryCount + 1, net, k + 1);
             rest.trace == Rounds(Normalize(Normalize(url)), rest.calls)
    ensures var r := FetchFrom(url, retryCount, net, k);
            r.trace == Rounds(Normalize(url), r.calls)
  {
    var full := Normalize(url);
    NormalizeIdempotent(url);
    var r := FetchFrom(url, retryCount, net, k);
    var rest := FetchFrom(full, retryCount + 1, net, k + 1);
    assert r.calls == rest.calls + 1 && r.trace == [Request(full), Pause, Rotate] + rest.trace;
  }

  /** `fetch_page(url)` with the default `retry_count` of 0. */
  function FetchPage(url: string, net: Network): (r: Outcome)
    ensures 1 <= r.calls <= RetryAttempts + 1
    ensures r.html.None? ==> r.calls == RetryAttempts + 1
  {
    FetchFrom(url, 0, net, 0)
  }

  /** The first of the requests `k`, ..., `k + m - 1` the server accepts, searched
      independently of `fetch_page`. */
  function FirstFetched(net: Network, url: string, k: nat, m: nat): (j: Option<nat>)
    ensures j.Some? ==> k <= j.value < k + m && Fetched(net(url, j.value))
    ensures j.Some? ==> forall i :: k <= i < j.value ==> !Fetched(net(url, i))
    ensures j.None? ==> forall i :: k <= i < k + m ==> !Fetched(net(url, i))
    decreases m
  {
    if m == 0 then None
    else if Fetched(net(url, k)) then Some(k)
    else FirstFetched(net, url, k + 1, m - 1)
  }

  /** `fetch_page` returns the page of the first accepted request within its budget,
      and `None` exactly when none of them is accepted. */
  lemma FetchReturnsFirstSuccess(url: string, retryCount: int, net: Network, k: nat)
    ensures var r := FetchFrom(url, retryCount, net, k);
            var first := FirstFetched(net, Normalize(url), k, MaxCalls(retryCount));
            && (r.html.None? <==> first.None?)
            && (first.Some? ==> r.calls == first.value - k + 1
                                && r.html == Some(net(Normalize(url), first.value).body))
  {
  }

  /** In a trace of retries the user agent is rotated exactly once before each retry
      and never before the first request. */
  lemma {:induction false} RotationBeforeEachRetry(url: string, n: nat)
    requires n >= 1
    ensures var t := Rounds(url, n);
            && Count(t, IsRequest) == n
            && Count(t, IsRotate) == n - 1
            && forall i :: 0 < i < |t| && t[i].Request? ==> t[i - 1] == Rotate
    decreases n
  {
    var t := Rounds(url, n);
    if n == 1 {
      assert t[..0] == [];
    } else {
      RotationBeforeEachRetry(url, n - 1);
      var rest := Rounds(url, n - 1);
      var head: seq<Event> := [Request(url), Pause, Rotate];
      CountAppend(head, rest, IsRequest);
      CountAppend(head, rest, IsRotate);
      assert t == head + rest;
      var two: seq<Event> := [Request(url), Pause];
      var one: seq<Event> := [Request(url)];
      assert head[..2] == two && two[..1] == one && one[..0] == [];
      assert Count(one, IsRequest) == 1 && Count(one, IsRotate) == 0;
      assert Count(two, IsRequest) == 1 && Count(two, IsRotate) == 0;
      forall i | 0 < i < |t| && t[i].Request?
        ensures t[i - 1] == Rotate
      {
        assert i >= 3;
        assert t[i] == rest[i - 3] && t[i - 1] == (if i == 3 then Rotate else rest[i - 4]);
      }
    }
  }
}
