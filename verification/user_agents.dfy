/** `UserAgentRotator` of the anti-bot toolkit: a non-empty pool of user-agent
    strings served round-robin or by random choice, and the browser header set
    built around the chosen agent. The random choice is a parameter `pick`, the
    index `random.choice` would have drawn (reduced modulo the pool size). */
module UserAgents {
  import opened Common
  import opened Text

  /** The built-in pool used when no custom agents are given. */
  const DefaultAgents: seq<string> := [
    "Mozilla/5.0 (Windows NT 10.0; Win64; x64) AppleWebKit/537.36 (KHTML, like Gecko) Chrome/120.0.0.0 Safari/537.36",
    "Mozilla/5.0 (Windows NT 10.0; Win64; x64) AppleWebKit/537.36 (KHTML, like Gecko) Chrome/119.0.0.0 Safari/537.36",
    "Mozilla/5.0 (Windows NT 11.0; Win64; x64) AppleWebKit/537.36 (KHTML, like Gecko) Chrome/120.0.0.0 Safari/537.36",
    "Mozilla/5.0 (Macintosh; Intel Mac OS X 10_15_7) AppleWebKit/537.36 (KHTML, like Gecko) Chrome/120.0.0.0 Safari/537.36",
    "Mozilla/5.0 (Macintosh; Intel Mac OS X 14_0) AppleWebKit/537.36 (KHTML, like Gecko) Chrome/120.0.0.0 Safari/537.36",
    "Mozilla/5.0 (Windows NT 10.0; Win64; x64; rv:121.0) Gecko/20100101 Firefox/121.0",
    "Mozilla/5.0 (Windows NT 10.0; Win64; x64; rv:120.0) Gecko/20100101 Firefox/120.0",
    "Mozilla/5.0 (Macintosh; Intel Mac OS X 10.15; rv:121.0) Gecko/20100101 Firefox/121.0",
    "Mozilla/5.0 (Macintosh; Intel Mac OS X 10_15_7) AppleWebKit/605.1.15 (KHTML, like Gecko) Version/17.0 Safari/605.1.15",
    "Mozilla/5.0 (Macintosh; Intel Mac OS X 14_0) AppleWebKit/605.1.15 (KHTML, like Gecko) Version/17.0 Safari/605.1.15",
    "Mozilla/5.0 (Windows NT 10.0; Win64; x64) AppleWebKit/537.36 (KHTML, like Gecko) Chrome/120.0.0.0 Safari/537.36 Edg/120.0.0.0",
    "Mozilla/5.0 (X11; Linux x86_64) AppleWebKit/537.36 (KHTML, like Gecko) Chrome/120.0.0.0 Safari/537.36",
    "Mozilla/5.0 (X11; Ubuntu; Linux x86_64; rv:121.0) Gecko/20100101 Firefox/121.0"
  ]

  datatype Rotator = Rotator(agents: seq<string>, index: nat, lastUsed: Option<string>)

  /** The rotator's standing invariant: a non-empty pool and an index inside it. */
  predicate Valid(r: Rotator) {
    |r.agents| > 0 && r.index < |r.agents|
  }

  /** `UserAgentRotator(custom_agents)`: a missing or empty custom list falls back to the defaults. */
  function New(custom: Option<seq<string>>): (r: Rotator)
    ensures Valid(r)
    ensures r.index == 0 && r.lastUsed == None
    ensures custom.Some? && |custom.value| > 0 ==> r.agents == custom.value
    ensures custom.None? || |custom.value| == 0 ==> r.agents == DefaultAgents
  {
    var agents := if custom.Some? && |custom.value| > 0 then custom.value else DefaultAgents;
    Rotator(agents, 0, None)
  }

  /** `get_random()`. */
  function GetRandom(r: Rotator, pick: nat): (res: (string, Rotator))
    requires Valid(r)
    ensures res.0 in r.agents
    ensures res.1 == r.(lastUsed := Some(res.0))
  {
    var agent := r.agents[pick % |r.agents|];
    (agent, r.(lastUsed := Some(agent)))
  }

  /** `get_next()`: serves the agent under the index and steps the index, wrapping
      from the last entry back to the first. */
  function GetNext(r: Rotator): (res: (string, Rotator))
    requires Valid(r)
    ensures Valid(res.1)
    ensures res.0 == r.agents[r.index]
    ensures res.1.agents == r.agents && res.1.lastUsed == Some(res.0)
    ensures res.1.index == if r.index + 1 == |r.agents| then 0 else r.index + 1
  {
    var agent := r.agents[r.index];
    StepWraps(r.index, |r.agents|);
    (agent, Rotator(r.agents, (r.index + 1) % |r.agents|, Some(agent)))
  }

  /** The agents served by `k` successive `get_next()` calls, and the rotator afterwards. */
  function NextMany(r: Rotator, k: nat): (res: (seq<string>, Rotator))
    requires Valid(r)
    ensures Valid(res.1) && res.1.agents == r.agents
    ensures |res.0| == k
    decreases k
  {
    if k == 0 then ([], r)
    else
      var (first, r1) := GetNext(r);
      var (rest, r2) := NextMany(r1, k - 1);
      ([first] + rest, r2)
  }

  /** `a + b` calls are `a` calls followed by `b` more. */
  lemma {:induction false} NextManySplit(r: Rotator, a: nat, b: nat)
    requires Valid(r)
    ensures NextMany(r, a + b).0 == NextMany(r, a).0 + NextMany(NextMany(r, a).1, b).0
    ensures NextMany(r, a + b).1 == NextMany(NextMany(r, a).1, b).1
    decreases a
  {
    if a > 0 {
      var step := GetNext(r);
      var whole := NextMany(step.1, a - 1 + b);
      var part := NextMany(step.1, a - 1);
      var tail := NextMany(part.1, b);
      NextManySplit(step.1, a - 1, b);
      assert whole.0 == part.0 + tail.0 && whole.1 == tail.1;
      var all := NextMany(r, a + b);
      var first := NextMany(r, a);
      assert all.0 == [step.0] + whole.0 && all.1 == whole.1;
      assert first.0 == [step.0] + part.0 && first.1 == part.1;
      assert [step.0] + (part.0 + tail.0) == ([step.0] + part.0) + tail.0;
    }
  }

  /** Calls that do not run past the end of the pool serve a contiguous slice of it,
      and the index wraps to the front exactly when the last entry was served. */
  lemma {:induction false} NextManySlice(r: Rotator, k: nat)
    requires Valid(r) && r.index + k <= |r.agents|
    ensures NextMany(r, k).0 == r.agents[r.index..r.index + k]
    ensures NextMany(r, k).1.index == if r.index + k == |r.agents| then 0 else r.index + k
    decreases k
  {
    if k > 0 && r.index + 1 < |r.agents| {
      NextManySlice(GetNext(r).1, k - 1);
    }
    if k > 0 {
      NextManySliceStep(r, k);
    }
  }

  /** One call in front of a contiguous run: the step of `NextManySlice`, with the
      claim for the rest of the run as hypothesis. */
  lemma {:induction false} NextManySliceStep(r: Rotator, k: nat)
    requires Valid(r) && 0 < k && r.index + k <= |r.agents|
    requires r.index + 1 < |r.agents| ==>
               var rest := NextMany(GetNext(r).1, k - 1);
               rest.0 == r.agents[r.index + 1..r.index + k]
               && rest.1.index == if r.index + k == |r.agents| then 0 else r.index + k
    ensures NextMany(r, k).0 == r.agents[r.index..r.index + k]
    ensures NextMany(r, k).1.index == if r.index + k == |r.agents| then 0 else r.index + k
  {
    var step := GetNext(r);
    var rest := NextMany(step.1, k - 1);
    assert NextMany(r, k) == ([step.0] + rest.0, rest.1);
    if r.index + 1 < |r.agents| {
      SliceCons(r.agents, r.index, r.index + k);
    } else {
      assert k == 1 && rest == ([], step.1);
    }
  }

  lemma SliceCons(a: seq<string>, i: nat, j: nat)
    requires i < j <= |a|
    ensures a[i..j] == [a[i]] + a[i + 1..j]
  {
  }

  /** A full cycle of `n` calls serves the pool rotated to start at the index, and
      brings the index back to where it started. */
  lemma FullCycleRotates(r: Rotator)
    requires Valid(r)
    ensures NextMany(r, |r.agents|).0 == r.agents[r.index..] + r.agents[..r.index]
    ensures NextMany(r, |r.agents|).1.index == r.index
  {
    var i := r.index;
    var a := |r.agents| - i;
    var front := NextMany(r, a);
    assert front.0 == r.agents[i..] && front.1.index == 0 && Valid(front.1) by {
      NextManyToEnd(r);
    }
    var back := NextMany(front.1, i);
    assert back.0 == r.agents[..i] && back.1.index == i by {
      NextManyFromStart(front.1, i);
    }
    var whole := NextMany(r, |r.agents|);
    assert whole.0 == front.0 + back.0 && whole.1 == back.1 by {
      NextManySplit(r, a, i);
      assert a + i == |r.agents|;
    }
  }

  /** Calls up to the end of the pool serve its tail and wrap the index to 0. */
  lemma NextManyToEnd(r: Rotator)
    requires Valid(r)
    ensures NextMany(r, |r.agents| - r.index).0 == r.agents[r.index..]
    ensures NextMany(r, |r.agents| - r.index).1.index == 0
  {
    NextManySlice(r, |r.agents| - r.index);
    assert r.agents[r.index..r.index + (|r.agents| - r.index)] == r.agents[r.index..];
  }

  /** From the first entry, `k` calls short of the whole pool serve its first `k`. */
  lemma NextManyFromStart(r: Rotator, k: nat)
    requires Valid(r) && r.index == 0 && k < |r.agents|
    ensures NextMany(r, k).0 == r.agents[..k]
    ensures NextMany(r, k).1.index == k
  {
    if k > 0 {
      NextManySlice(r, k);
      assert r.agents[0..k] == r.agents[..k];
    }
  }

  /** Hence a full cycle serves every pooled entry exactly once. */
  lemma FullCycleServesEachOnce(r: Rotator)
    requires Valid(r)
    ensures multiset(NextMany(r, |r.agents|).0) == multiset(r.agents)
    ensures NextMany(r, |r.agents|).1.index == r.index
  {
    FullCycleRotates(r);
    RotatePermutes(r.agents, r.index);
  }

  /** A rotation of a sequence has the same elements. */
  lemma RotatePermutes(a: seq<string>, i: nat)
    requires i <= |a|
    ensures multiset(a[i..] + a[..i]) == multiset(a)
  {
    assert a == a[..i] + a[i..];
  }

  // ------------------------------------------------------- get_browser_headers

  const AcceptValue := "text/html,application/xhtml+xml,application/xml;q=0.9,image/avif,image/webp,image/apng,*/*;q=0.8"
  const ClientHintsValue := "\"Not_A Brand\";v=\"8\", \"Chromium\";v=\"120\", \"Google Chrome\";v=\"120\""

  /** Header names sent with every request. */
  const BaseHeaderNames: set<string> := {
    "User-Agent", "Accept", "Accept-Language", "Accept-Encoding", "Connection",
    "Upgrade-Insecure-Requests", "Sec-Fetch-Dest", "Sec-Fetch-Mode", "Sec-Fetch-Site",
    "Sec-Fetch-User", "Cache-Control"
  }

  /** Chromium client-hint header names. */
  const ClientHintNames: set<string> := {"Sec-Ch-Ua", "Sec-Ch-Ua-Mobile", "Sec-Ch-Ua-Platform"}

  /** The headers sent with every request, around one user agent. */
  function BaseHeaders(ua: string): (h: map<string, string>)
    ensures h.Keys == BaseHeaderNames
    ensures h["User-Agent"] == ua
    ensures "Sec-Ch-Ua" !in h
  {
    map[
      "Accept" := AcceptValue,
      "Accept-Language" := "en-US,en;q=0.9",
      "Accept-Encoding" := "gzip, deflate, br",
      "Connection" := "keep-alive",
      "Upgrade-Insecure-Requests" := "1",
      "Sec-Fetch-Dest" := "document",
      "Sec-Fetch-Mode" := "navigate",
      "Sec-Fetch-Site" := "none",
      "Sec-Fetch-User" := "?1",
      "Cache-Control" := "max-age=0",
      "User-Agent" := ua
    ]
  }

  /** The header set built around one user agent: the base headers, and the Chromium
      client hints when the agent names Chrome. */
  function HeadersFor(ua: string): (h: map<string, string>)
    ensures h.Keys == BaseHeaderNames + (if Contains(ua, "Chrome") then ClientHintNames else {})
    ensures h["User-Agent"] == ua
    ensures "Sec-Ch-Ua" in h <==> Contains(ua, "Chrome")
    ensures Contains(ua, "Chrome") ==>
              h["Sec-Ch-Ua-Mobile"] == "?0"
              && h["Sec-Ch-Ua-Platform"] == (if Contains(ua, "Windows") then "\"Windows\"" else "\"macOS\"")
  {
    if Contains(ua, "Chrome") then BaseHeaders(ua) + ClientHints(ua) else BaseHeaders(ua)
  }

  /** The Chromium client hints; the platform follows the agent. */
  function ClientHints(ua: string): (h: map<string, string>)
    ensures h.Keys == ClientHintNames
    ensures h["Sec-Ch-Ua-Mobile"] == "?0"
    ensures h["Sec-Ch-Ua-Platform"] == if Contains(ua, "Windows") then "\"Windows\"" else "\"macOS\""
  {
    map[
      "Sec-Ch-Ua" := ClientHintsValue,
      "Sec-Ch-Ua-Platform" := if Contains(ua, "Windows") then "\"Windows\"" else "\"macOS\"",
      "Sec-Ch-Ua-Mobile" := "?0"
    ]
  }

  /** `get_browser_headers(user_agent)`: a given agent is used as is and leaves the
      rotator alone; without one a random pooled agent is drawn and remembered. */
  function GetBrowserHeaders(r: Rotator, ua: Option<string>, pick: nat): (res: (map<string, string>, Rotator))
    requires Valid(r)
    ensures "User-Agent" in res.0
    ensures ua.Some? ==> res.0["User-Agent"] == ua.value && res.1 == r
    ensures ua.None? ==> res.0["User-Agent"] in r.agents && res.1 == r.(lastUsed := Some(res.0["User-Agent"]))
    ensures res.0 == HeadersFor(res.0["User-Agent"])
    ensures ("Sec-Ch-Ua" in res.0) <==> Contains(res.0["User-Agent"], "Chrome")
  {
    if ua.Some? then (HeadersFor(ua.value), r)
    else
      var (agent, r') := GetRandom(r, pick);
      (HeadersFor(agent), r')
  }
}
