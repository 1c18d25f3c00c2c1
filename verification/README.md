# Anti-bot quote scraper: a Dafny model

This project models the decision logic of a Python quote scraper for
`quotes.toscrape.com` in Dafny. The scraper has three parts:

- an anti-bot toolkit (`src/antibot.py`), covering:
  - the retry decision table and capped exponential backoff;
  - the bounded retry loop;
  - the substring-based CAPTCHA and block detector;
  - the round-robin user-agent rotator and its header builder;
  - the proxy pool with its failed set;
  - the rolling-window request throttler;
- three fetch-and-paginate scripts built on that toolkit, each re-implemented with different semantics:
  - `advanced_scraper.py`;
  - `final_antibot_scraper.py`;
  - `WebScraper.fetch_page` of `src/scraper.py`;
- the deduplicating quote store of `src/database.py` and the page loop of `db_scraper.py` that feeds it.

The model is functional. Entities are immutable datatypes, and operations are pure
functions, except where the source loops. The network, clocks, random draws and HTML
extraction are not modelled. The operations take them as parameters instead:

- `Network` maps a URL and a request number to the reply;
- a `nat -> real` is the sequence of jitter draws;
- a `Clock` holds the readings of `datetime.now()`;
- `parse` and `nextHref` stand for `parse_quotes` and `get_next_page`.

The modules are:

- `Common`: `Option`, `Result`, counting, and ring steps.
- `Text`: the Python string operations the code relies on: `lower`, `in`, `split`/`join`, `replace`, `strip`, `int()`/`str()`.
- `Web`: responses, `raise_for_status`, statistics, link following, and which page each fetch served.
- `Retry`, `Captcha`, `UserAgents`, `Proxies`, `Throttle`: the classes of `src/antibot.py`.
- `Advanced`, `Final`, `WebScraper`: the three fetch/paginate variants.
- `QuoteStore`: `insert_quote` and `insert_quotes_batch`, over the four tables as sequences and a set of links.
- `DbScraper`: the `main` loop of `db_scraper.py`, with its totals and session status.

Row ids follow `AUTOINCREMENT`, and nothing is deleted, so the row at position `i` has id `i + 1`.

## Model

| member | source | states |
|---|---|---|
| Common.CountAppend | final_antibot_scraper.py:72-92 | counting the blocked or failed attempts of two runs of attempts adds up |
| Text.LowerAppend | src/antibot.py:411 | lowering a concatenation is concatenating the lowered parts, which is why a detected indicator survives appended text |
| Text.ContainsExtend | src/antibot.py:414-417 | a substring found in a page is still found after text is added on either side |
| Text.SplitJoin | src/antibot.py:137 | splitting on ':' gives back the fields that were joined with ':' when no field holds ':' |
| Text.JoinSplit | src/antibot.py:137 | joining the fields of a split gives back the split string |
| Text.ParseIntRoundTrip | src/antibot.py:141 | `int(str(n)) == n` for every integer, the port round trip of proxy lines |
| Text.ReplaceAllAbsent | src/antibot.py:185 | `replace` leaves alone a string that lacks a character of the target |
| Web.Replies | final_antibot_scraper.py:65-70 | the replies seen by the first `n` attempts of a fetch are the network's answers to requests 0..n-1 |
| Web.CollectedSnoc | advanced_scraper.py:286-288 | the quotes gathered after one more page are the earlier quotes followed by that page's quotes |
| Web.FollowsLinksSnocPage | advanced_scraper.py:290-293 | adding a fetched page keeps every later URL equal to `BASE_URL` plus the link of the page before it |
| Retry.ShouldRetry | src/antibot.py:307-328 | no retry once `attempt >= max_retries`; otherwise a retry for 408/429/500/502/503/504, none for any other 4xx, and a retry for everything else, including no code, 0 and 501 |
| Retry.ShouldRetryTable | src/antibot.py:315-328 | the decision depends on the attempt only through `attempt < max_retries`, and on the code only through the table |
| Retry.ShouldRetrySamples | test_antibot.py:62-66 | the component test's expectations: with 3 retries at attempt 0, codes 200, 429, 500 and 503 are retried and 403 is not |
| Retry.GetDelay | src/antibot.py:290-305 | the delay never exceeds `max_delay`, and lies within ±25% of `base * exp_base^attempt` when under the cap |
| Retry.GetDelayMonotone | src/antibot.py:290-305 | for a fixed jitter draw, a non-negative base and an exponential base of at least 1, the delay does not shrink as the attempt grows |
| Retry.Execute | src/antibot.py:343-358 | at most `max_retries + 1` calls, all but the last of which raised and slept a non-negative backoff; the result is the last call's when it returned or was the final attempt; a negative backoff after a failure ends in `time.sleep`'s `ValueError`; one sleep after each failed attempt that is not the last |
| Retry.ExecuteWithRetry | src/antibot.py:330-358 | `execute_with_retry` returns the first successful call's value, or raises the last exception after `max_retries + 1` failures; a negative `get_delay(k)` after a failure raises `ValueError` from `time.sleep`; a negative `max_retries` makes no call and raises `TypeError` from `raise None`; each sleep is `get_delay(k)`, between 0 and `max_delay` |
| Retry.BackoffNonNegative | src/antibot.py:296-303 | with non-negative `base_delay`, `max_delay` and `exponential_base` and a draw in [-1, 1], `get_delay` is never negative, so `time.sleep` does not raise |
| Captcha.BlockReasonMatchesIsBlocked | src/antibot.py:470-481 | `get_block_reason` gives a known reason exactly for blocked responses, and decides by the status code before it looks at the body |
| Captcha.CaptchaPageExtend | src/antibot.py:411-443 | appending or prepending text never turns a detected CAPTCHA page into an undetected one |
| Captcha.BlockedExtend | src/antibot.py:446-467 | the same monotonicity for `is_blocked` |
| Captcha.WidgetMarkersMostlyRedundant | src/antibot.py:428-441 | of the seven widget markers only `data-sitekey=` and `cf-turnstile` can decide a page that the indicator list does not already catch |
| Captcha.NormalPageIsClean | test_antibot.py:76-81 | the component test's plain page is not a CAPTCHA page and is not blocked under status 200 |
| Captcha.ChallengePagesDetected | test_antibot.py:77-83 | the reCAPTCHA widget page and the "Access Denied" page are detected and blocked |
| Captcha.StatusSamples | test_antibot.py:85-92 | 200 with no body is not blocked; 403 and 429 are, with the reasons the test prints |
| Common.AheadIsMod | src/antibot.py:165-172 | stepping `d` slots around the ring is `(index + d) % len`, the index arithmetic `get_next` repeats |
| UserAgents.New | src/antibot.py:68-72 | the pool is never empty: a missing or empty custom list falls back to the defaults; the index starts at 0 |
| UserAgents.GetRandom | src/antibot.py:74-78 | the drawn agent comes from the pool and becomes `last_used` |
| UserAgents.GetNext | src/antibot.py:80-85 | serves the agent under the index and steps the index by one, wrapping to 0 at the end of the pool |
| UserAgents.NextManySplit | src/antibot.py:80-85 | `a + b` successive calls serve what `a` calls and then `b` more calls serve |
| UserAgents.FullCycleRotates | src/antibot.py:80-85 | `n` calls on a pool of `n` serve the pool rotated to start at the index, and leave the index where it was |
| UserAgents.FullCycleServesEachOnce | src/antibot.py:80-85 | hence `n` calls serve every pooled agent exactly once (as multisets) |
| UserAgents.HeadersFor | src/antibot.py:92-111 | the header names are the eleven base ones, plus the three `Sec-Ch-Ua` ones exactly when the agent contains "Chrome"; `User-Agent` is the agent |
| UserAgents.GetBrowserHeaders | src/antibot.py:87-113 | a given agent is used as is and leaves the rotator alone; otherwise a pooled agent is drawn and recorded; the map returned is the full header set for that agent (`HeadersFor`), so client hints appear iff the agent contains "Chrome" |
| Proxies.ProxyUrl | src/antibot.py:20-25 | the proxy URL starts with the scheme and `://`, ends with `host:port`, and carries credentials exactly when both are truthy |
| Proxies.ToDict | src/antibot.py:27-30 | both the `http` and `https` entries are the proxy URL |
| Proxies.New | src/antibot.py:119-124 | a new pool serves every given proxy, and the given proxies get no counters |
| Proxies.AddProxy | src/antibot.py:126-129 | appends the proxy and (re)starts only its `host:port` counters at zero |
| Proxies.ParseLine | src/antibot.py:137-144 | a line with fewer than two ':' fields is skipped; a bad port is a `ValueError`; otherwise host, port and the optional username and password come from the fields |
| Proxies.ParseFormatRoundTrip | src/antibot.py:137-144 | reading back the line written for a configuration gives that configuration |
| Proxies.AddProxiesFromList | src/antibot.py:131-145 | the pool becomes the old proxies followed by the configurations read before the first bad port, in line order; a `ValueError` happens exactly when some line has a bad port |
| Proxies.AddParsedInOrder | src/antibot.py:131-145 | the loop over read lines appends exactly the configurations before the first rejected port, in order |
| Proxies.AddedProxiesComeFromLines | src/antibot.py:136-145 | every appended proxy was read from one of the lines |
| Proxies.AddedCounters | src/antibot.py:129-145 | afterwards the counters are the old ones with the keys of the added proxies reset to zero |
| Proxies.AddFormattedLines | src/antibot.py:131-145 | the lines written for a list of configurations add exactly that list, with no error |
| Proxies.GetRandom | src/antibot.py:147-157 | `None` exactly when every pooled proxy is marked failed; otherwise the dict of a live pooled proxy |
| Proxies.GetNext | src/antibot.py:159-176 | `None` on an empty pool or when all entries are failed, with the index back where it started; otherwise the first live proxy at or after the index, in ring order, with the index just past it |
| Proxies.MarkFailed | src/antibot.py:178-191 | the recovered key joins the failed set, and only a registered key's failure counter moves |
| Proxies.MarkSuccess | src/antibot.py:193-202 | only a registered key's success counter moves, and nothing else changes |
| Proxies.ResetFailed | src/antibot.py:204-207 | the failed set is emptied, and nothing else changes |
| Proxies.ResetRevivesAll | src/antibot.py:204-207 | after a reset every pooled proxy is live and `get_random` on a non-empty pool succeeds |
| Proxies.KeyOfHttpUrl | src/antibot.py:178-187 | for an http proxy, with or without credentials, where the proxy's host holds no '@' or '/' and its credentials, when used, hold no '@', `mark_failed(p.to_dict())` recovers exactly the `host:port` key that `get_next` tests |
| Proxies.MarkFailedRetiresProxy | src/antibot.py:170-189 | hence a marked http proxy where the proxy's host holds no '@' or '/' and its credentials, when used, hold no '@' is no longer served, and its failure counter moves when registered |
| Proxies.MarkFailedMissesSocks | src/antibot.py:182-187 | as written, a socks5 proxy without credentials is recorded as `socks5://host:port` and stays live |
| Proxies.MarkFailedAnyScheme | src/antibot.py:178-191 | `mark_failed` with the key taken after the scheme separator; otherwise the same as `mark_failed` |
| Proxies.KeyOfAnySchemeRoundTrip | src/antibot.py:20-30 | for any scheme without ':' or '@', where the proxy's host holds no '@' or '/' and its credentials, when used, hold no '@', the corrected key of `to_dict()` is `host:port`, and marking retires the proxy |
| Throttle.New | src/antibot.py:213-229 | a new throttler has an empty window and no errors |
| Throttle.Newer | src/antibot.py:234-235 | the pruned window is no longer than the window; every kept timestamp is after the cutoff and comes from the window; every timestamp after the cutoff is kept |
| Throttle.NewerSnoc | src/antibot.py:234-235 | read from the back, the filter appends each later timestamp exactly when it is after the cutoff; with the empty window this fixes the kept timestamps and their order |
| Throttle.NewerCounts | src/antibot.py:234-235 | each timestamp after the cutoff is kept as many times as it occurs in the window, and no other is kept |
| Throttle.NewerTwice | src/antibot.py:234-235 | pruning again with a later cutoff is pruning once with it |
| Throttle.Wait | src/antibot.py:231-256 | the window becomes the pruned window plus the stamp; the pause is 0, or when the window is full, what remains of a minute since its oldest entry; the delay is the draw times `1 + 0.5 * errors` and is never negative; a non-positive rate with an empty window raises `IndexError`; otherwise a negative delay raises `ValueError` from `time.sleep` |
| Throttle.RecordSuccess | src/antibot.py:258-260 | the error count drops to 0, and nothing else changes |
| Throttle.RecordError | src/antibot.py:262-264 | the error count grows by one, and nothing else changes |
| Throttle.DelayBounds | src/antibot.py:246-250 | the randomised delay lies between the two bounds, both stretched by the error multiplier |
| Throttle.ErrorsStretchDelay | src/antibot.py:249-264 | each recorded error adds half the drawn delay, and a success restores the drawn delay |
| Throttle.WindowStaysWithinRate | src/antibot.py:234-256 | when the clock does not run backwards, the window one minute before the new stamp holds at most `requests_per_minute` requests |
| Throttle.NextWindowWithinRate | src/antibot.py:234-256 | the next `wait()` finds at most `requests_per_minute` requests in its window |
| Advanced.Config | advanced_scraper.py:101-108 | the local retry handler doubles the delay and caps it at 60 s |
| Advanced.GetDelayBounds | advanced_scraper.py:105-108 | the local delay is at most 60 s, within ±25% of `base * 2^attempt`, and non-decreasing in the attempt |
| Advanced.Execute | advanced_scraper.py:110-121 | at most `max_retries + 1` calls; the first success is returned, or the last error after `max_retries + 1` failures, or `ValueError` when a backoff is negative; each sleep is between 0 and 60 s |
| Advanced.GetReason | advanced_scraper.py:142-144 | "Unknown" exactly for codes other than 403, 429 and 503 |
| Advanced.DoRequest | advanced_scraper.py:153-164 | an attempt returns the body exactly when the status passes `raise_for_status` and the block check; 4xx/5xx raise an HTTP error first; a block raises with reason "Unknown" |
| Advanced.BlocksComeFromBodies | advanced_scraper.py:157-162 | a reply counted as a block has a status outside {403, 429, 503} and an indicator in its lowered body |
| Advanced.ReturnedPageIsClean | advanced_scraper.py:160-164 | a page `do_request` returns passes `is_blocked(200, html)` |
| Advanced.FetchPage | advanced_scraper.py:149-178 | one throttler wait and one counted request per call; one block counted per blocked attempt; exactly one of successful/failed, paired with `record_success`/`record_error`; a page is the body of the attempt that returned, and no page means every attempt made raised, all `max_retries + 1` of them unless a backoff was negative |
| Advanced.Scrape | advanced_scraper.py:266-296 | at most `MAX_PAGES` fetches from `BASE_URL` along next links; each page is the first attempt of its URL's fetch that returned; a run with fewer pages than URLs stopped because all four attempts on the last URL raised; the quotes are the pages' quotes in order; the CAPTCHA branch never fires, so `captchas` stays 0; a run of fewer than `MAX_PAGES` pages without a failed fetch ends at a page with no next link |
| Advanced.MainFetch | advanced_scraper.py:253-275 | a `fetch_page` call of `main`, with its throttler and three retries, never fails in the wait; it counts one request and keeps the throttler's settings; a page is what the network served and passes the CAPTCHA check; no page means all four attempts raised |
| Advanced.Visit | advanced_scraper.py:275-288 | one pass of `main`'s loop adds its URL to the visited list and adds at most one page; a page is what the network served and its quotes are appended after the earlier pages' quotes; the CAPTCHA branch never fires; a visit that adds no page had all four attempts raise; the link chain and the request, success and failure counts stay consistent |
| Advanced.FetchOutcome | advanced_scraper.py:149-178 | with `main`'s retry handler and a draw in [-1, 1], a fetched page is the first attempt that returned, and no page means all four attempts raised |
| Final.Classify | final_antibot_scraper.py:70-84 | an attempt is a block exactly when the reply is blocked, and a success exactly when it is not blocked and passes `raise_for_status` |
| Final.StatusRouting | final_antibot_scraper.py:72-86 | 403, 429 and 503 count as blocks; other 4xx/5xx without an indicator go down the exception path |
| Final.KelvinSignBlocks | final_antibot_scraper.py:48-59 | a body that spells "blocked" with U+212A KELVIN SIGN is a block under status 200, because lowering turns that sign into `k` |
| Final.Backoff | final_antibot_scraper.py:76 | each wait lies in `[2^attempt, 2^attempt + 1]` |
| Final.BackoffGrows | final_antibot_scraper.py:76-90 | waits do not shrink from one attempt to a later one |
| Final.FetchWithRetry | final_antibot_scraper.py:61-94 | `requests` moves once per call, even with no attempt; at most `max_retries` attempts; `blocks`/`failed` count the blocked/failed attempts; `successful` moves only on a returned page; one backoff sleep after each attempt but the last |
| Final.FetchPage | final_antibot_scraper.py:99-102 | a page comes back exactly when one of the three attempts succeeds, and it is the body of the first successful attempt; `requests` moves once; `successful` moves only with a page |
| Final.ServedPagesClean | final_antibot_scraper.py:72-84 | a page that was returned passed the block check |
| Final.Crawl | final_antibot_scraper.py:189-215 | at most `MAX_PAGES` fetches from `BASE_URL` along next links; each page is the first successful attempt of its URL's fetch; `requests` counts the URLs and `successful` the pages; a run with fewer pages than URLs stopped because all three attempts on the last URL failed; a run of fewer than `MAX_PAGES` pages without a failed fetch ends at a page with no next link |
| Final.Scrape | final_antibot_scraper.py:188-215 | the same, with the quotes being the pages' quotes in page order and `captchas` staying 0 |
| WebScraper.NormalizeIdempotent | src/scraper.py:47-76 | a prefixed URL does not start with '/', so the recursive retry never prefixes twice |
| WebScraper.FetchFrom | src/scraper.py:35-79 | at most `RETRY_ATTEMPTS + 1 - retry_count` requests; the text is returned exactly when the last request passed `raise_for_status`, and every earlier one failed; `None` only after the whole budget |
| WebScraper.FetchPage | src/scraper.py:35-79 | a call makes between 1 and `RETRY_ATTEMPTS + 1` requests, all of them when it returns `None` |
| WebScraper.FetchReturnsFirstSuccess | src/scraper.py:53-79 | the result is the text of the first accepted request within the budget, as a search independent of the recursion finds it; `None` exactly when there is none |
| WebScraper.FetchTrace | src/scraper.py:72-76 | a call's events are its requests of the completed URL, with a pause and a user-agent rotation between consecutive ones |
| WebScraper.RotationBeforeEachRetry | src/scraper.py:72-76 | `n` requests come with `n - 1` rotations, one directly before each retry and none before the first request |
| QuoteStore.EmptyValid | src/database.py:29-67 | the empty store meets the schema's constraints |
| QuoteStore.GetOrCreate | src/database.py:101-107 | an existing name keeps its id and the table; a new name is appended with the next id; uniqueness is kept |
| QuoteStore.AddTags | src/database.py:117-127 | every listed tag ends up in the tag table; tag names stay unique; links only grow, and new links join `q` to a listed tag |
| QuoteStore.AddTagsLinksEach | src/database.py:117-127 | every listed tag is linked to the quote |
| QuoteStore.InsertQuote | src/database.py:89-130 | `None` exactly when the text is stored, and then the store is unchanged; otherwise exactly one row is added under the next id, with its author reused or created and its source recorded |
| QuoteStore.InsertKeepsValid | src/database.py:89-130 | insertion preserves unique authors, tags and quote texts, and the references |
| QuoteStore.InsertLinksExactlyTags | src/database.py:117-127 | the new quote is linked to exactly the set of listed tag names, so a repeated name gives one link |
| QuoteStore.BatchTextsAppend | src/database.py:144 | the texts of two concatenated batches are the union of each batch's texts |
| QuoteStore.InsertBatch | src/database.py:139-156 | `added + skipped == len(quotes)`; the store grows by `added`; it ends holding the batch's texts; validity is preserved |
| QuoteStore.RepeatInBatchSkipped | src/database.py:144-154 | a second occurrence of a text in one batch is skipped |
| QuoteStore.FreshBatchAllAdded | src/database.py:144-154 | a batch of distinct texts none of which is stored is added in full |
| QuoteStore.BatchTwiceSkipsAll | src/database.py:139-156 | inserting the same batch a second time adds nothing and skips everything |
| DbScraper.FetchPage | db_scraper.py:32-43 | a reply with a status below 400 or from 600 on gives its body; a 4xx or 5xx reply (`raise_for_status`) and a transport error give `None` |
| DbScraper.TalliedSnoc | db_scraper.py:113-115 | one more batch keeps the totals equal to the parsed quotes and the store in step |
| DbScraper.IngestedTallied | db_scraper.py:109-115 | after any pages, `total_added + total_skipped` is the number of parsed quotes, the store grew by `total_added` and holds every parsed text |
| DbScraper.KeptAt | db_scraper.py:103-115 | every page whose quotes were inserted is the text of its single-attempt fetch, and was not aborted |
| DbScraper.EndStatus | db_scraper.py:97-136 | the run ends non-completed exactly when the last URL's page was fetched and then aborted, with the status for that abort |
| DbScraper.Crawl | db_scraper.py:98-125 | at most `MAX_PAGES` URLs from `BASE_URL` along next links; every kept page is its URL's fetched text and was not aborted; an abort stops the run on a fetched page; a run that stops without an abort before the last URL's page ended on a failed fetch |
| DbScraper.Scrape | db_scraper.py:97-136 | `pages_scraped == len(urls) <= MAX_PAGES`, counted before the fetch so a failed fetch counts; `total_added + total_skipped` is the number of parsed quotes of the kept pages, the store grew by `total_added` and holds their texts; URLs follow next links; the status is the abort's or 'completed'; a completed run with fewer inserted pages ended on a failed fetch |

## Left out

- Selenium, HTML extraction (`parse_quotes`, `get_next_page`, `src/parser.py`), exporters and `save_*`: these are parameters or are not modelled, because they delegate to libraries whose behaviour is not part of this model.
- Read-only database queries, `init_database`, `start_session`, `db_query.py`, `run_scraper.py`, `main.py`, printing and logging: these are I/O glue around the modelled loops.
- Sleeping, `datetime.now()`, `random.*` and the network: these are parameters. Delays are `real`, not floating point.
- `random.choice` of a user agent in the scripts: not modelled, since the chosen agent does not influence the modelled reply.
- `Text.Lower` maps only the characters whose lower-case form is one ASCII character: the ASCII capitals and U+212A KELVIN SIGN, which becomes `k` (`Final.KelvinSignBlocks`). Every other character is kept. Python's `str.lower` also lowers the other Unicode letters, but to non-ASCII characters, which cannot take part in a match with the ASCII indicators. The one exception is U+0130, whose lower-case form is `i` followed by U+0307. No indicator, challenge fragment or widget marker ends in `i`, so that `i` cannot finish a match either. Whether a pattern occurs is therefore the same as in the source.
- `Text.ParseInt` accepts surrounding whitespace, a sign and decimal digits. Python's `int()` also accepts `_` separators and non-ASCII digits.
- The advanced script's own `UserAgentRotator.get_headers` (advanced_scraper.py:20-59) is not modelled. It differs from the toolkit's `get_browser_headers`: it has 7 agents, an Accept header without `image/apng`, always `"Windows"` as the platform hint, and no `last_used`. The headers do not affect the modelled reply. The script's `RequestThrottler` (advanced_scraper.py:61-96) is the toolkit's class and is modelled by `Throttle`.
- `Advanced.Scrape`: the throttler's `IndexError` on a non-positive rate, and `ValueError` on a negative delay, cannot happen with the script's settings (a rate of 20, delays of 1.5 to 3 s, and `random.uniform` draws in range), so every wait returns. The draws are assumed in range by its requires.
- `Advanced.Execute` takes a non-negative `max_retries`, as the script passes 3. A negative value, which ends in `raise None`, is modelled by `Retry.ExecuteWithRetry`.
- `Throttle.Wait`: on the `ValueError` path, `wait()` has already stored the pruned window. The `Err` does not carry that window.
- `DbScraper.Scrape`: an abort happens only after a successful fetch and before that page's batch (in `parse_quotes`, say). The source has three more abort points that are not modelled:
  - A keyboard interrupt during `fetch_page`'s sleep or request. `fetch_page` catches only `Exception`, so the run ends 'interrupted' with that URL counted in `pages_scraped` and no page fetched. `EndStatus` cannot produce that.
  - An exception or interrupt after a page's batch, in `get_next_page` say. The run then ends 'failed' or 'interrupted' with that page's quotes already in the store and in the totals.
  - An interrupt halfway through a batch, with the inserts made so far committed.
- `DbScraper.Scrape` also leaves out the `quote.get('tags', [])` default and SQL errors.
- `Final.Scrape` collects the quotes of the fetched pages after the page loop rather than extending `all_quotes` inside it. Nothing in the loop reads `all_quotes`, so the result is the same concatenation in page order.
- `DbScraper.Scrape` inserts the kept pages' batches after the page loop rather than inside it. Nothing in the loop reads the store, so the store and totals are the same fold of per-page batches, in page order.
- `WebScraper.FetchPage`: the network reply is indexed by request number. The rotated user agent is recorded in the trace but does not affect the reply.
- `WebScraper.FetchReturnsFirstSuccess` relates the recursion to an independent search, and the verifier proves it without proof steps.

## Findings

| source | as written | input that shows it | evidently intended | confidence | as-written member | corrected member |
|---|---|---|---|---|---|---|
| src/antibot.py:182-187 | `mark_failed` strips only the `http://` and `https://` prefixes to recover the `host:port` key | a `ProxyConfig(host="h", port=1, protocol="socks5")` with no credentials: the key recorded is `socks5://h:1`, while `get_next` tests `h:1`, so the proxy is still served | strip whatever scheme precedes `://` so that the recorded key is `host:port` for every scheme | medium, not executed | Proxies.MarkFailedMissesSocks | Proxies.KeyOfAnySchemeRoundTrip |
