/** `ProxyConfig` and `ProxyRotator` of the anti-bot toolkit: the proxy URL a
    configuration renders to, a pool served round-robin while skipping entries whose
    "host:port" key is in the failed set, per-key success/failure counters, and the
    key a `mark_failed`/`mark_success` call recovers from a rendered proxy URL.
    The random choice of `get_random` is a parameter `pick`. */
module Proxies {
  import opened Common
  import opened Text

  datatype ProxyConfig = ProxyConfig(
    host: string,
    port: int,
    username: Option<string>,
    password: Option<string>,
    protocol: string)

  /** Python truthiness of an optional string: present and non-empty. */
  predicate Truthy(o: Option<string>) {
    o.Some? && o.value != ""
  }

  /** The pool's key for a proxy, `f"{host}:{port}"`. */
  function HostPort(p: ProxyConfig): string {
    p.host + ":" + IntToString(p.port)
  }

  /** The proxy URL of `to_dict`: credentials are written only when both are truthy. */
  function ProxyUrl(p: ProxyConfig): (u: string)
    ensures StartsWith(u, p.protocol + "://")
    ensures |u| >= |p.protocol| + 3 + |HostPort(p)|
    ensures u[|u| - |HostPort(p)|..] == HostPort(p)
    ensures Truthy(p.username) && Truthy(p.password) ==>
              u[|p.protocol| + 3..|u| - |HostPort(p)|] == p.username.value + ":" + p.password.value + "@"
    ensures !(Truthy(p.username) && Truthy(p.password)) ==> |u| == |p.protocol| + 3 + |HostPort(p)|
  {
    var hp := HostPort(p);
    if Truthy(p.username) && Truthy(p.password) then
      p.protocol + "://" + p.username.value + ":" + p.password.value + "@" + hp
    else
      p.protocol + "://" + hp
  }

  /** `to_dict()`: the same URL for both schemes. */
  function ToDict(p: ProxyConfig): (d: map<string, string>)
    ensures d.Keys == {"http", "https"}
    ensures d["http"] == d["https"] == ProxyUrl(p)
  {
    map["http" := ProxyUrl(p), "https" := ProxyUrl(p)]
  }

  // ------------------------------------------------------------------ the pool

  datatype Counter = Counter(success: nat, failure: nat)

  datatype Pool = Pool(
    proxies: seq<ProxyConfig>,
    index: nat,
    failed: set<string>,
    stats: map<string, Counter>)

  /** The index is 0 or points into the pool. */
  predicate Valid(p: Pool) {
    p.index == 0 || p.index < |p.proxies|
  }

  /** A pooled proxy is served only while its key is not marked failed. */
  predicate Live(p: Pool, c: ProxyConfig) {
    HostPort(c) !in p.failed
  }

  /** `ProxyRotator(proxies)`: the given proxies get no counters. */
  function New(proxies: seq<ProxyConfig>): (p: Pool)
    ensures Valid(p)
    ensures p.proxies == proxies && p.index == 0
    ensures forall c :: c in proxies ==> Live(p, c)
    ensures p.stats == map[]
  {
    Pool(proxies, 0, {}, map[])
  }

  /** `add_proxy(proxy)`: appends and (re)starts the proxy's counters at zero. */
  function AddProxy(p: Pool, c: ProxyConfig): (q: Pool)
    requires Valid(p)
    ensures Valid(q)
    ensures q.proxies == p.proxies + [c]
    ensures q.index == p.index && q.failed == p.failed
    ensures HostPort(c) in q.stats && q.stats[HostPort(c)] == Counter(0, 0)
    ensures forall k :: k in p.stats && k != HostPort(c) ==> k in q.stats && q.stats[k] == p.stats[k]
    ensures q.stats.Keys == p.stats.Keys + {HostPort(c)}
  {
    p.(proxies := p.proxies + [c], stats := p.stats[HostPort(c) := Counter(0, 0)])
  }

  // ------------------------------------------------------- add_proxies_from_list

  /** What one line of `add_proxies_from_list` yields: too few fields (skipped), a
      configuration, or a port `int()` rejects (`ValueError`). */
  datatype LineResult = Skipped | Parsed(cfg: ProxyConfig) | BadPort

  /** One line `"host:port"` or `"host:port:username:password"`, stripped and split on ':'. */
  function ParseLine(line: string): (r: LineResult)
    ensures r.Skipped? <==> |Split(Strip(line), ':')| < 2
    ensures r.BadPort? <==> |Split(Strip(line), ':')| >= 2 && ParseInt(Split(Strip(line), ':')[1]).None?
    ensures r.Parsed? ==> r.cfg.protocol == "http" && r.cfg.host == Split(Strip(line), ':')[0]
    ensures r.Parsed? ==> Some(r.cfg.port) == ParseInt(Split(Strip(line), ':')[1])
    ensures r.Parsed? ==> (r.cfg.username.Some? <==> |Split(Strip(line), ':')| > 2)
    ensures r.Parsed? ==> (r.cfg.password.Some? <==> |Split(Strip(line), ':')| > 3)
  {
    var parts := Split(Strip(line), ':');
    if |parts| < 2 then Skipped
    else
      match ParseInt(parts[1])
      case None => BadPort
      case Some(port) =>
        Parsed(ProxyConfig(
          parts[0], port,
          if |parts| > 2 then Some(parts[2]) else None,
          if |parts| > 3 then Some(parts[3]) else None,
          "http"))
  }

  /** The line a configuration is written as: "host:port", then the username and the
      password when present. */
  function FormatLine(c: ProxyConfig): string {
    var hp := c.host + ":" + IntToString(c.port);
    if c.username.None? then hp
    else if c.password.None? then hp + ":" + c.username.value
    else hp + ":" + c.username.value + ":" + c.password.value
  }

  /** A field a line can carry back unchanged: no separator and no whitespace. */
  predicate PlainField(s: string) {
    forall i :: 0 <= i < |s| ==> s[i] != ':' && !IsSpace(s[i])
  }

  /** A configuration a line can describe. */
  predicate Describable(c: ProxyConfig) {
    c.protocol == "http"
    && PlainField(c.host)
    && (c.username.Some? ==> PlainField(c.username.value))
    && (c.password.Some? ==> PlainField(c.password.value) && c.username.Some?)
  }

  lemma IntToStringPlain(n: int)
    ensures PlainField(IntToString(n))
    ensures '@' !in IntToString(n) && '/' !in IntToString(n)
  {
  }

  /** The fields of the line a configuration is written as. */
  function Fields(c: ProxyConfig): (fields: seq<string>)
    ensures 2 <= |fields| <= 4
  {
    var ps := IntToString(c.port);
    if c.username.None? then [c.host, ps]
    else if c.password.None? then [c.host, ps, c.username.value]
    else [c.host, ps, c.username.value, c.password.value]
  }

  /** The written line is its fields joined with ':'. */
  lemma JoinFields(c: ProxyConfig)
    ensures Join(Fields(c), ':') == FormatLine(c)
  {
    var hp := c.host + ":" + IntToString(c.port);
    if c.username.None? {
      JoinTwo(c.host, IntToString(c.port));
    } else if c.password.None? {
      JoinTwo(IntToString(c.port), c.username.value);
      JoinMore(c.host, [IntToString(c.port), c.username.value]);
    } else {
      JoinTwo(c.username.value, c.password.value);
      JoinMore(IntToString(c.port), [c.username.value, c.password.value]);
      JoinMore(c.host, [IntToString(c.port), c.username.value, c.password.value]);
    }
  }

  lemma JoinTwo(a: string, b: string)
    ensures Join([a, b], ':') == a + ":" + b
  {
    assert [a, b][1..] == [b];
  }

  lemma JoinMore(a: string, rest: seq<string>)
    requires |rest| >= 1
    ensures Join([a] + rest, ':') == a + ":" + Join(rest, ':')
  {
    assert ([a] + rest)[1..] == rest;
  }

  /** The fields of a describable configuration are plain. */
  lemma FieldsPlain(c: ProxyConfig)
    requires Describable(c)
    ensures forall k :: 0 <= k < |Fields(c)| ==> PlainField(Fields(c)[k])
  {
    IntToStringPlain(c.port);
  }

  /** A plain field does not hold the separator. */
  lemma PlainNoColon(fields: seq<string>)
    requires forall k :: 0 <= k < |fields| ==> PlainField(fields[k])
    ensures forall k :: 0 <= k < |fields| ==> ':' !in fields[k]
  {
  }

  /** Reading a line whose fields are those of `c` gives `c`. */
  lemma ParseFields(line: string, c: ProxyConfig)
    requires Describable(c)
    requires Split(Strip(line), ':') == Fields(c)
    ensures ParseLine(line) == Parsed(c)
  {
    ParseIntRoundTrip(c.port);
  }

  /** Reading back a written line gives the configuration. */
  lemma ParseFormatRoundTrip(c: ProxyConfig)
    requires Describable(c)
    ensures ParseLine(FormatLine(c)) == Parsed(c)
  {
    var fields := Fields(c);
    var line := FormatLine(c);
    FieldsPlain(c);
    JoinFields(c);
    PlainNoColon(fields);
    SplitJoin(fields, ':');
    forall i | 0 <= i < |line|
      ensures !IsSpace(line[i])
    {
      JoinPlain(fields, i);
    }
    StripNoSpace(line);
    ParseFields(line, c);
  }

  /** A character of a join of plain fields is a field character or the separator. */
  lemma {:induction false} JoinPlain(fields: seq<string>, i: int)
    requires forall k :: 0 <= k < |fields| ==> PlainField(fields[k])
    requires 0 <= i < |Join(fields, ':')|
    ensures !IsSpace(Join(fields, ':')[i])
    decreases |fields|
  {
    if |fields| > 1 {
      var s := Join(fields, ':');
      assert s == fields[0] + [':'] + Join(fields[1..], ':');
      if i > |fields[0]| {
        JoinPlain(fields[1..], i - |fields[0]| - 1);
      }
    }
  }

  /** Each line read on its own; reading has no effect, so `add_proxies_from_list` is
      the fold below over these results. */
  function ParseLines(lines: seq<string>): (rs: seq<LineResult>)
    ensures |rs| == |lines|
    ensures forall k :: 0 <= k < |lines| ==> rs[k] == ParseLine(lines[k])
  {
    seq(|lines|, k requires 0 <= k < |lines| => ParseLine(lines[k]))
  }

  /** Some read line has a port `int()` rejects. */
  predicate HasBadPort(rs: seq<LineResult>)
    decreases |rs|
  {
    |rs| > 0 && (rs[0].BadPort? || HasBadPort(rs[1..]))
  }

  /** `HasBadPort` is the search it names. */
  lemma {:induction false} HasBadPortIff(rs: seq<LineResult>)
    ensures HasBadPort(rs) <==> exists k :: 0 <= k < |rs| && rs[k].BadPort?
    decreases |rs|
  {
    if |rs| > 0 {
      var rest := rs[1..];
      HasBadPortIff(rest);
      if HasBadPort(rest) {
        var k :| 0 <= k < |rest| && rest[k].BadPort?;
        assert rs[k + 1] == rest[k];
      }
      if k :| 0 <= k < |rs| && rs[k].BadPort? {
        if k > 0 {
          assert rest[k - 1] == rs[k];
        }
      }
    }
  }

  /** The loop of `add_proxies_from_list` over read lines: a configuration is added, a
      short line skipped, and a rejected port stops the loop with the proxies added so
      far kept. The flag says whether the `ValueError` was raised. */
  function AddParsed(p: Pool, rs: seq<LineResult>): (res: (Pool, bool))
    requires Valid(p)
    ensures Valid(res.0)
    ensures res.0.index == p.index && res.0.failed == p.failed
    ensures |p.proxies| <= |res.0.proxies| <= |p.proxies| + |rs|
    ensures res.0.proxies[..|p.proxies|] == p.proxies
    ensures res.1 <==> HasBadPort(rs)
    decreases |rs|
  {
    if |rs| == 0 then (p, false)
    else
      match rs[0]
      case Skipped => AddParsed(p, rs[1..])
      case BadPort => (p, true)
      case Parsed(c) =>
        var p1 := AddProxy(p, c);
        var res := AddParsed(p1, rs[1..]);
        assert res.0.proxies[..|p.proxies|] == res.0.proxies[..|p1.proxies|][..|p.proxies|];
        res
  }

  /** The configurations read before the first rejected port, in line order: what the
      loop appends, stated without the pool. */
  function ConfigsBeforeBadPort(rs: seq<LineResult>): (cs: seq<ProxyConfig>)
    ensures |cs| <= |rs|
    decreases |rs|
  {
    if |rs| == 0 then []
    else
      match rs[0]
      case Skipped => ConfigsBeforeBadPort(rs[1..])
      case BadPort => []
      case Parsed(c) => [c] + ConfigsBeforeBadPort(rs[1..])
  }

  /** The fold appends exactly the configurations read before the first rejected port,
      in order. */
  lemma {:induction false} AddParsedInOrder(p: Pool, rs: seq<LineResult>)
    requires Valid(p)
    ensures AddParsed(p, rs).0.proxies == p.proxies + ConfigsBeforeBadPort(rs)
    decreases |rs|
  {
    if |rs| > 0 && !rs[0].BadPort? {
      AddParsedInOrder(if rs[0].Parsed? then AddProxy(p, rs[0].cfg) else p, rs[1..]);
      AddParsedInOrderStep(p, rs);
    } else {
      assert AddParsed(p, rs).0 == p;
    }
  }

  /** The step of `AddParsedInOrder`: a configuration read first is appended first. */
  lemma {:induction false} AddParsedInOrderStep(p: Pool, rs: seq<LineResult>)
    requires Valid(p) && |rs| > 0 && !rs[0].BadPort?
    requires var p1 := if rs[0].Parsed? then AddProxy(p, rs[0].cfg) else p;
             AddParsed(p1, rs[1..]).0.proxies == p1.proxies + ConfigsBeforeBadPort(rs[1..])
    ensures AddParsed(p, rs).0.proxies == p.proxies + ConfigsBeforeBadPort(rs)
  {
    var p1 := if rs[0].Parsed? then AddProxy(p, rs[0].cfg) else p;
    var rest := ConfigsBeforeBadPort(rs[1..]);
    assert AddParsed(p, rs) == AddParsed(p1, rs[1..]);
    if rs[0].Parsed? {
      assert ConfigsBeforeBadPort(rs) == [rs[0].cfg] + rest;
      assert (p.proxies + [rs[0].cfg]) + rest == p.proxies + ([rs[0].cfg] + rest);
    } else {
      assert ConfigsBeforeBadPort(rs) == rest;
    }
  }

  /** `add_proxies_from_list(lines)`: each line in turn; a `ValueError` on a port stops
      the loop with the proxies added so far kept. The flag says whether it was raised. */
  function AddProxiesFromList(p: Pool, lines: seq<string>): (res: (Pool, bool))
    requires Valid(p)
    ensures Valid(res.0)
    ensures res.0.index == p.index && res.0.failed == p.failed
    ensures res.0.proxies == p.proxies + ConfigsBeforeBadPort(ParseLines(lines))
    ensures |p.proxies| <= |res.0.proxies| <= |p.proxies| + |lines|
    ensures res.1 <==> exists k :: 0 <= k < |lines| && ParseLine(lines[k]).BadPort?
  {
    var rs := ParseLines(lines);
    HasBadPortIff(rs);
    AddParsedInOrder(p, rs);
    AddParsed(p, rs)
  }

  /** Some line of `lines` parses to `c`. */
  predicate ParsedFrom(lines: seq<string>, c: ProxyConfig) {
    exists k :: 0 <= k < |lines| && ParseLine(lines[k]) == Parsed(c)
  }

  /** Some read line is `c`. */
  predicate ParsedIn(rs: seq<LineResult>, c: ProxyConfig) {
    exists k :: 0 <= k < |rs| && rs[k] == Parsed(c)
  }

  /** Every proxy the fold appends is one of the read configurations. */
  lemma {:induction false} AddedComeFromParsed(p: Pool, rs: seq<LineResult>)
    requires Valid(p)
    ensures forall j :: |p.proxies| <= j < |AddParsed(p, rs).0.proxies| ==>
              ParsedIn(rs, AddParsed(p, rs).0.proxies[j])
    decreases |rs|
  {
    if |rs| > 0 && !rs[0].BadPort? {
      AddedComeFromParsed(if rs[0].Parsed? then AddProxy(p, rs[0].cfg) else p, rs[1..]);
      ComeFromNext(p, rs);
    } else {
      assert AddParsed(p, rs).0 == p;
    }
  }

  /** The step of `AddedComeFromParsed`: what the rest of the fold appends comes from
      the later results, and a configuration read first is appended first. */
  lemma {:induction false} ComeFromNext(p: Pool, rs: seq<LineResult>)
    requires Valid(p) && |rs| > 0 && !rs[0].BadPort?
    requires var p1 := if rs[0].Parsed? then AddProxy(p, rs[0].cfg) else p;
             forall j :: |p1.proxies| <= j < |AddParsed(p1, rs[1..]).0.proxies| ==>
               ParsedIn(rs[1..], AddParsed(p1, rs[1..]).0.proxies[j])
    ensures forall j :: |p.proxies| <= j < |AddParsed(p, rs).0.proxies| ==>
              ParsedIn(rs, AddParsed(p, rs).0.proxies[j])
  {
    var p1 := if rs[0].Parsed? then AddProxy(p, rs[0].cfg) else p;
    var q := AddParsed(p1, rs[1..]).0;
    assert AddParsed(p, rs).0 == q;
    if rs[0].Parsed? {
      DropAfterPrefix(q.proxies, p.proxies, rs[0].cfg);
    }
    LaterParsed(rs, p.proxies, q.proxies, |p1.proxies|);
  }

  /** Proxies appended past `from` came from the later results, or from the first. */
  lemma LaterParsed(rs: seq<LineResult>, before: seq<ProxyConfig>, after: seq<ProxyConfig>, from: nat)
    requires |rs| > 0 && |before| <= from <= |before| + 1 && from <= |after|
    requires from > |before| ==> rs[0] == Parsed(after[|before|])
    requires forall j :: from <= j < |after| ==> ParsedIn(rs[1..], after[j])
    ensures forall j :: |before| <= j < |after| ==> ParsedIn(rs, after[j])
  {
    forall j | |before| <= j < |after|
      ensures ParsedIn(rs, after[j])
    {
      if j < from {
        assert rs[0] == Parsed(after[j]);
      } else {
        var k :| 0 <= k < |rs[1..]| && rs[1..][k] == Parsed(after[j]);
        assert rs[k + 1] == Parsed(after[j]);
      }
    }
  }

  /** Every proxy `add_proxies_from_list` appends was read from one of the lines. */
  lemma AddedProxiesComeFromLines(p: Pool, lines: seq<string>)
    requires Valid(p)
    ensures forall j :: |p.proxies| <= j < |AddProxiesFromList(p, lines).0.proxies| ==>
              ParsedFrom(lines, AddProxiesFromList(p, lines).0.proxies[j])
  {
    var rs := ParseLines(lines);
    var q := AddParsed(p, rs).0;
    assert AddProxiesFromList(p, lines).0 == q;
    AddedComeFromParsed(p, rs);
    forall j | |p.proxies| <= j < |q.proxies|
      ensures ParsedFrom(lines, q.proxies[j])
    {
      var k :| 0 <= k < |rs| && rs[k] == Parsed(q.proxies[j]);
      assert ParseLine(lines[k]) == Parsed(q.proxies[j]);
    }
  }

  /** The pool keys of a list of proxies. */
  function KeysOf(cs: seq<ProxyConfig>): set<string> {
    set c | c in cs :: HostPort(c)
  }

  /** Zeroed counters for the given keys. */
  function Zeroed(keys: set<string>): map<string, Counter> {
    map k | k in keys :: Counter(0, 0)
  }

  /** The counters after the fold: the keys it added start from zero and every other
      key keeps its counters. */
  lemma {:induction false} ParsedCounters(p: Pool, rs: seq<LineResult>)
    requires Valid(p)
    ensures AddParsed(p, rs).0.stats == p.stats + Zeroed(KeysOf(AddParsed(p, rs).0.proxies[|p.proxies|..]))
    decreases |rs|
  {
    if |rs| == 0 || rs[0].BadPort? {
      NothingAdded(p, rs);
    } else {
      ParsedCounters(if rs[0].Parsed? then AddProxy(p, rs[0].cfg) else p, rs[1..]);
      ParsedCountersNext(p, rs);
    }
  }

  /** The fold that stops at once leaves the counters alone. */
  lemma NothingAdded(p: Pool, rs: seq<LineResult>)
    requires Valid(p) && (|rs| == 0 || rs[0].BadPort?)
    ensures AddParsed(p, rs).0.stats == p.stats + Zeroed(KeysOf(AddParsed(p, rs).0.proxies[|p.proxies|..]))
  {
    assert AddParsed(p, rs).0 == p;
    assert p.proxies[|p.proxies|..] == [];
    assert Zeroed(KeysOf([])) == map[];
  }

  /** The counters after the fold, from those after the rest of the fold. */
  lemma ParsedCountersNext(p: Pool, rs: seq<LineResult>)
    requires Valid(p) && |rs| > 0 && !rs[0].BadPort?
    requires var p1 := if rs[0].Parsed? then AddProxy(p, rs[0].cfg) else p;
             AddParsed(p1, rs[1..]).0.stats == p1.stats + Zeroed(KeysOf(AddParsed(p1, rs[1..]).0.proxies[|p1.proxies|..]))
    ensures AddParsed(p, rs).0.stats == p.stats + Zeroed(KeysOf(AddParsed(p, rs).0.proxies[|p.proxies|..]))
  {
    if rs[0].Parsed? {
      var c := rs[0].cfg;
      var q := AddParsed(AddProxy(p, c), rs[1..]).0;
      assert q == AddParsed(p, rs).0;
      ParsedCountersStep(p, c, q);
    } else {
      assert AddParsed(p, rs) == AddParsed(p, rs[1..]);
    }
  }

  /** The step of `ParsedCounters` for a read configuration `c`: `q` is the pool the
      rest of the fold makes from `AddProxy(p, c)`. */
  lemma ParsedCountersStep(p: Pool, c: ProxyConfig, q: Pool)
    requires Valid(p)
    requires |p.proxies| + 1 <= |q.proxies| && q.proxies[..|p.proxies| + 1] == p.proxies + [c]
    requires q.stats == AddProxy(p, c).stats + Zeroed(KeysOf(q.proxies[|p.proxies| + 1..]))
    ensures q.stats == p.stats + Zeroed(KeysOf(q.proxies[|p.proxies|..]))
  {
    var p1 := AddProxy(p, c);
    var added1 := q.proxies[|p.proxies| + 1..];
    DropAfterPrefix(q.proxies, p.proxies, c);
    assert p1.stats == p.stats[HostPort(c) := Counter(0, 0)];
    AddedOneMore(p.stats, c, p1.stats, added1, q.stats);
  }

  /** The counters after `add_proxies_from_list`: the keys it added start from zero and
      every other key keeps its counters. */
  lemma AddedCounters(p: Pool, lines: seq<string>)
    requires Valid(p)
    ensures AddProxiesFromList(p, lines).0.stats
              == p.stats + Zeroed(KeysOf(AddProxiesFromList(p, lines).0.proxies[|p.proxies|..]))
  {
    ParsedCounters(p, ParseLines(lines));
  }

  /** The step of `ParsedCounters` for a parsed line. */
  lemma AddedOneMore(before: map<string, Counter>, c: ProxyConfig, mid: map<string, Counter>,
                     rest: seq<ProxyConfig>, after: map<string, Counter>)
    requires mid == before[HostPort(c) := Counter(0, 0)]
    requires after == mid + Zeroed(KeysOf(rest))
    ensures after == before + Zeroed(KeysOf([c] + rest))
  {
    KeysOfCons(c, rest);
    ZeroOneMore(before, HostPort(c), KeysOf(rest));
  }

  /** Past a prefix `pre + [c]`, a sequence goes on with `c`. */
  lemma DropAfterPrefix<T>(s: seq<T>, pre: seq<T>, c: T)
    requires |pre| + 1 <= |s| && s[..|pre| + 1] == pre + [c]
    ensures s[|pre|] == c
    ensures s[|pre|..] == [c] + s[|pre| + 1..]
  {
    assert s[|pre|] == (pre + [c])[|pre|];
  }

  lemma KeysOfCons(c: ProxyConfig, cs: seq<ProxyConfig>)
    ensures KeysOf([c] + cs) == {HostPort(c)} + KeysOf(cs)
  {
    var all := [c] + cs;
    assert all[0] == c;
    forall k | k in KeysOf(cs) ensures k in KeysOf(all) {
      var d :| d in cs && HostPort(d) == k;
      assert d in all;
    }
  }

  lemma ZeroOneMore(m: map<string, Counter>, key: string, keys: set<string>)
    ensures m[key := Counter(0, 0)] + Zeroed(keys) == m + Zeroed({key} + keys)
  {
  }

  /** The lines written for a list of configurations. */
  function FormatLines(cs: seq<ProxyConfig>): (lines: seq<string>)
    ensures |lines| == |cs|
    ensures forall k :: 0 <= k < |cs| ==> lines[k] == FormatLine(cs[k])
  {
    seq(|cs|, k requires 0 <= k < |cs| => FormatLine(cs[k]))
  }

  /** The fold over results that are all configurations adds exactly those, in order,
      without raising. */
  lemma {:induction false} AddAllParsed(p: Pool, rs: seq<LineResult>, cs: seq<ProxyConfig>)
    requires Valid(p)
    requires |rs| == |cs| && forall k :: 0 <= k < |rs| ==> rs[k] == Parsed(cs[k])
    ensures AddParsed(p, rs).0.proxies == p.proxies + cs
    ensures !AddParsed(p, rs).1
    decreases |rs|
  {
    HasBadPortIff(rs);
    if |rs| > 0 {
      AddAllParsed(AddProxy(p, cs[0]), rs[1..], cs[1..]);
      AddAllParsedStep(p, rs, cs);
    }
  }

  /** The step of `AddAllParsed`: the first configuration goes in front of the rest. */
  lemma {:induction false} AddAllParsedStep(p: Pool, rs: seq<LineResult>, cs: seq<ProxyConfig>)
    requires Valid(p) && |rs| == |cs| > 0 && rs[0] == Parsed(cs[0])
    requires var p1 := AddProxy(p, cs[0]);
             AddParsed(p1, rs[1..]).0.proxies == p1.proxies + cs[1..]
    ensures AddParsed(p, rs).0.proxies == p.proxies + cs
  {
    var p1 := AddProxy(p, cs[0]);
    assert AddParsed(p, rs) == AddParsed(p1, rs[1..]);
    AppendFirst(p.proxies, cs);
  }

  /** Appending the head and then the tail is appending the whole. */
  lemma AppendFirst<T>(a: seq<T>, cs: seq<T>)
    requires |cs| > 0
    ensures (a + [cs[0]]) + cs[1..] == a + cs
  {
    assert cs == [cs[0]] + cs[1..];
  }

  /** The lines written for a list of describable configurations add exactly those
      configurations, in order, without raising. */
  lemma AddFormattedLines(p: Pool, cs: seq<ProxyConfig>)
    requires Valid(p)
    requires forall k :: 0 <= k < |cs| ==> Describable(cs[k])
    ensures AddProxiesFromList(p, FormatLines(cs)).0.proxies == p.proxies + cs
    ensures !AddProxiesFromList(p, FormatLines(cs)).1
  {
    var lines := FormatLines(cs);
    var rs := ParseLines(lines);
    forall k | 0 <= k < |rs|
      ensures rs[k] == Parsed(cs[k])
    {
      ParseFormatRoundTrip(cs[k]);
    }
    AddAllParsed(p, rs, cs);
  }

  // --------------------------------------------------------------- get_random

  /** The pooled proxies whose key is not marked failed, in pool order. */
  function Available(p: Pool, proxies: seq<ProxyConfig>): (a: seq<ProxyConfig>)
    ensures forall c :: c in a <==> c in proxies && Live(p, c)
    decreases |proxies|
  {
    if |proxies| == 0 then []
    else
      var rest := Available(p, proxies[..|proxies| - 1]);
      var last := proxies[|proxies| - 1];
      assert proxies == proxies[..|proxies| - 1] + [last];
      if Live(p, last) then rest + [last] else rest
  }

  /** `get_random()` with `pick` the index `random.choice` draws. */
  function GetRandom(p: Pool, pick: nat): (r: Option<map<string, string>>)
    ensures r.None? <==> forall k :: 0 <= k < |p.proxies| ==> !Live(p, p.proxies[k])
    ensures r.Some? ==> exists k :: 0 <= k < |p.proxies| && Live(p, p.proxies[k]) && r.value == ToDict(p.proxies[k])
  {
    var available := Available(p, p.proxies);
    if |available| == 0 then
      assert forall k :: 0 <= k < |p.proxies| ==> !Live(p, p.proxies[k]) by {
        forall k | 0 <= k < |p.proxies| ensures !Live(p, p.proxies[k]) {
          assert p.proxies[k] !in available;
        }
      }
      None
    else
      var c := available[pick % |available|];
      assert c in available;
      Some(ToDict(c))
  }

  // ----------------------------------------------------------------- get_next

  /** `get_next()`: from the index, inspect at most one full round and serve the first
      proxy whose key is not failed, leaving the index just past it. */
  method GetNext(p: Pool) returns (res: Option<map<string, string>>, q: Pool)
    requires Valid(p)
    ensures Valid(q)
    ensures q.proxies == p.proxies && q.failed == p.failed && q.stats == p.stats
    ensures |p.proxies| == 0 ==> res.None? && q == p
    ensures res.None? <==> forall k :: 0 <= k < |p.proxies| ==> !Live(p, p.proxies[k])
    ensures res.None? ==> q.index == p.index
    ensures res.Some? ==>
              exists d :: 0 <= d < |p.proxies|
                && Live(p, p.proxies[Ahead(p.index, d, |p.proxies|)])
                && (forall e :: 0 <= e < d ==> !Live(p, p.proxies[Ahead(p.index, e, |p.proxies|)]))
                && res.value == ToDict(p.proxies[Ahead(p.index, d, |p.proxies|)])
                && q.index == Ahead(p.index, d + 1, |p.proxies|)
  {
    if |p.proxies| == 0 {
      return None, p;
    }
    var n := |p.proxies|;
    var index := p.index;
    var attempts := 0;
    while attempts < n
      invariant 0 <= attempts <= n
      invariant index == Ahead(p.index, attempts, n)
      invariant forall e :: 0 <= e < attempts ==> !Live(p, p.proxies[Ahead(p.index, e, n)])
    {
      var proxy := p.proxies[index];
      StepWraps(index, n);
      index := (index + 1) % n;
      assert index == Ahead(p.index, attempts + 1, n);
      if HostPort(proxy) !in p.failed {
        assert Live(p, p.proxies[Ahead(p.index, attempts, n)]);
        return Some(ToDict(proxy)), p.(index := index);
      }
      attempts := attempts + 1;
    }
    NoLiveInRing(p);
    return None, p;
  }

  /** A full lap from the index that meets no live proxy passes every proxy. */
  lemma NoLiveInRing(p: Pool)
    requires |p.proxies| > 0 && p.index < |p.proxies|
    requires forall e :: 0 <= e < |p.proxies| ==> !Live(p, p.proxies[Ahead(p.index, e, |p.proxies|)])
    ensures forall k :: 0 <= k < |p.proxies| ==> !Live(p, p.proxies[k])
  {
    var n := |p.proxies|;
    forall k | 0 <= k < n
      ensures !Live(p, p.proxies[k])
    {
      var d := if k >= p.index then k - p.index else k + n - p.index;
      assert Ahead(p.index, d, n) == k;
    }
  }

  // ----------------------------------------------- mark_failed / mark_success

  /** The key `mark_failed`/`mark_success` recover from a proxy URL: the text after
      the first '@', or else the URL without its "http://" and "https://" parts. */
  function KeyOf(url: string): string {
    if '@' in url then Split(url, '@')[1]
    else ReplaceAll(ReplaceAll(url, "http://", ""), "https://", "")
  }

  /** `proxy_dict.get("http", "")`. */
  function HttpUrl(d: map<string, string>): string {
    if "http" in d then d["http"] else ""
  }

  /** `mark_failed(proxy_dict)`: the key joins the failed set; its failure counter moves
      only when `add_proxy` registered it. */
  function MarkFailed(p: Pool, d: map<string, string>): (q: Pool)
    ensures q.failed == p.failed + {KeyOf(HttpUrl(d))}
    ensures q.proxies == p.proxies && q.index == p.index
    ensures q.stats.Keys == p.stats.Keys
    ensures forall k :: k in p.stats ==>
              q.stats[k] == if k == KeyOf(HttpUrl(d)) then p.stats[k].(failure := p.stats[k].failure + 1) else p.stats[k]
  {
    var key := KeyOf(HttpUrl(d));
    var stats := if key in p.stats then p.stats[key := p.stats[key].(failure := p.stats[key].failure + 1)] else p.stats;
    p.(failed := p.failed + {key}, stats := stats)
  }

  /** `mark_success(proxy_dict)`: only a registered key's success counter moves. */
  function MarkSuccess(p: Pool, d: map<string, string>): (q: Pool)
    ensures q.failed == p.failed && q.proxies == p.proxies && q.index == p.index
    ensures q.stats.Keys == p.stats.Keys
    ensures forall k :: k in p.stats ==>
              q.stats[k] == if k == KeyOf(HttpUrl(d)) then p.stats[k].(success := p.stats[k].success + 1) else p.stats[k]
  {
    var key := KeyOf(HttpUrl(d));
    if key in p.stats then p.(stats := p.stats[key := p.stats[key].(success := p.stats[key].success + 1)]) else p
  }

  /** `reset_failed()`. */
  function ResetFailed(p: Pool): (q: Pool)
    ensures q.failed == {}
    ensures q.proxies == p.proxies && q.index == p.index && q.stats == p.stats
  {
    p.(failed := {})
  }

  /** After a reset every pooled proxy can be served again. */
  lemma ResetRevivesAll(p: Pool, pick: nat)
    ensures forall c :: c in p.proxies ==> Live(ResetFailed(p), c)
    ensures |p.proxies| > 0 ==> GetRandom(ResetFailed(p), pick).Some?
  {
    if |p.proxies| > 0 {
      assert Live(ResetFailed(p), ResetFailed(p).proxies[0]);
    }
  }

  /** A proxy whose host, port and credentials carry no '@' and whose host carries no '/'. */
  predicate KeySafe(c: ProxyConfig) {
    '@' !in c.host && '/' !in c.host
    && (Truthy(c.username) && Truthy(c.password) ==> '@' !in c.username.value && '@' !in c.password.value)
  }

  lemma SplitAtSign(a: string, b: string)
    requires '@' !in a && '@' !in b
    ensures Split(a + "@" + b, '@') == [a, b]
  {
    assert a + "@" + b == a + ['@'] + b;
    SplitField(a, b, '@');
    SplitWithout(b, '@');
  }

  /** For an http proxy, `mark_failed(p.to_dict())` recovers exactly the key `get_next`
      and `get_random` test. */
  lemma KeyOfHttpUrl(c: ProxyConfig)
    requires c.protocol == "http" && KeySafe(c)
    ensures KeyOf(HttpUrl(ToDict(c))) == HostPort(c)
  {
    var hp := HostPort(c);
    IntToStringPlain(c.port);
    assert '@' !in hp && '/' !in hp;
    var url := ProxyUrl(c);
    if Truthy(c.username) && Truthy(c.password) {
      var a := "http://" + c.username.value + ":" + c.password.value;
      assert url == a + "@" + hp;
      SplitAtSign(a, hp);
    } else {
      assert url == "http://" + hp;
      assert '@' !in url;
      ReplaceAllAbsent(hp, "http://", "", '/');
      assert url[..7] == "http://" && url[7..] == hp;
      assert ReplaceAll(url, "http://", "") == hp;
      ReplaceAllAbsent(hp, "https://", "", '/');
    }
  }

  /** Consequently a marked http proxy is skipped by `get_next` and `get_random` until
      `reset_failed`, and a registered one has its failure counter advanced. */
  lemma MarkFailedRetiresProxy(p: Pool, c: ProxyConfig)
    requires c.protocol == "http" && KeySafe(c)
    ensures !Live(MarkFailed(p, ToDict(c)), c)
    ensures HostPort(c) in p.stats ==>
              MarkFailed(p, ToDict(c)).stats[HostPort(c)].failure == p.stats[HostPort(c)].failure + 1
  {
    KeyOfHttpUrl(c);
  }

  // -------------------------------------------------------- non-http proxies

  /** A string with no match of `target` is left alone by `replace`. */
  lemma {:induction false} ReplaceAllNoMatch(s: string, target: string, repl: string)
    requires |target| > 0 && !Contains(s, target)
    ensures ReplaceAll(s, target, repl) == s
    decreases |s|
  {
    if |s| >= |target| {
      assert !MatchAt(s, target, 0);
      assert !Contains(s[1..], target) by {
        forall i | 0 <= i <= |s[1..]|
          ensures !MatchAt(s[1..], target, i)
        {
          if MatchAt(s[1..], target, i) {
            assert s[i + 1..i + 1 + |target|] == s[1..][i..i + |target|];
            assert MatchAt(s, target, i + 1);
          }
        }
      }
      ReplaceAllNoMatch(s[1..], target, repl);
      assert [s[0]] + s[1..] == s;
    }
  }

  /** Neither scheme prefix occurs in a socks5 URL without credentials. */
  lemma SocksUrlHasNoHttp(hp: string)
    requires '/' !in hp
    ensures !Contains("socks5://" + hp, "http://")
    ensures !Contains("socks5://" + hp, "https://")
  {
    var u := "socks5://" + hp;
    forall i | 0 <= i <= |u|
      ensures !MatchAt(u, "http://", i) && !MatchAt(u, "https://", i)
    {
      NoSchemeAt(hp, i, "http://");
      NoSchemeAt(hp, i, "https://");
    }
  }

  /** A scheme prefix cannot start at `i` in a socks5 URL whose host part has no '/':
      the fixed prefix holds no 'h', and past it there is no '/' for the pattern's slash. */
  lemma NoSchemeAt(hp: string, i: int, pat: string)
    requires '/' !in hp && 0 <= i <= 9 + |hp|
    requires pat == "http://" || pat == "https://"
    ensures !MatchAt("socks5://" + hp, pat, i)
  {
    var u := "socks5://" + hp;
    var slash := if pat == "http://" then 5 else 6;
    if i + |pat| <= |u| {
      if i < 9 {
        assert u[i] == "socks5://"[i] != 'h';
        assert u[i..i + |pat|][0] != pat[0];
      } else {
        assert u[i + slash] == hp[i + slash - 9] != '/';
        assert u[i..i + |pat|][slash] != pat[slash];
      }
    }
  }

  /** As written, `mark_failed` on a socks5 proxy without credentials records a key that
      still carries the scheme, so the proxy stays live for `get_next`/`get_random`. */
  lemma MarkFailedMissesSocks(p: Pool, c: ProxyConfig)
    requires c.protocol == "socks5" && KeySafe(c)
    requires !(Truthy(c.username) && Truthy(c.password))
    requires Live(p, c)
    ensures KeyOf(HttpUrl(ToDict(c))) == "socks5://" + HostPort(c)
    ensures Live(MarkFailed(p, ToDict(c)), c)
  {
    var hp := HostPort(c);
    assert |"socks5://" + hp| != |hp|;
    IntToStringPlain(c.port);
    var url := ProxyUrl(c);
    assert url == "socks5://" + hp;
    assert '@' !in url;
    SocksUrlHasNoHttp(hp);
    ReplaceAllNoMatch(url, "http://", "");
    ReplaceAllNoMatch(url, "https://", "");
  }

  /** The text after the first occurrence of `sep` in `s`, if any. */
  function AfterFirst(s: string, sep: string): (r: Option<string>)
    requires |sep| > 0
    ensures r.Some? ==> |r.value| <= |s| - |sep| && r.value == s[|s| - |r.value|..]
    decreases |s|
  {
    if |s| < |sep| then None
    else if s[..|sep|] == sep then Some(s[|sep|..])
    else AfterFirst(s[1..], sep)
  }

  /** The key a proxy URL of any scheme stands for: the text after the first '@', or
      else the text after the scheme's "://". */
  function KeyOfAnyScheme(url: string): string {
    if '@' in url then Split(url, '@')[1]
    else
      match AfterFirst(url, "://")
      case None => url
      case Some(rest) => rest
  }

  /** `mark_failed` recovering the key with `KeyOfAnyScheme`. */
  function MarkFailedAnyScheme(p: Pool, d: map<string, string>): (q: Pool)
    ensures q.failed == p.failed + {KeyOfAnyScheme(HttpUrl(d))}
    ensures q.proxies == p.proxies && q.index == p.index
    ensures q.stats.Keys == p.stats.Keys
    ensures forall k :: k in p.stats ==>
              q.stats[k] == if k == KeyOfAnyScheme(HttpUrl(d)) then p.stats[k].(failure := p.stats[k].failure + 1) else p.stats[k]
  {
    var key := KeyOfAnyScheme(HttpUrl(d));
    var stats := if key in p.stats then p.stats[key := p.stats[key].(failure := p.stats[key].failure + 1)] else p.stats;
    p.(failed := p.failed + {key}, stats := stats)
  }

  lemma {:induction false} AfterScheme(proto: string, rest: string)
    requires ':' !in proto
    ensures AfterFirst(proto + "://" + rest, "://") == Some(rest)
    decreases |proto|
  {
    var s := proto + "://" + rest;
    if |proto| == 0 {
      assert s[..3] == "://" && s[3..] == rest;
    } else {
      assert s[0] == proto[0] != ':';
      assert s[..3] != "://";
      assert s[1..] == proto[1..] + "://" + rest;
      AfterScheme(proto[1..], rest);
    }
  }

  /** Whatever the scheme, the corrected key is the pool key. */
  lemma KeyOfAnySchemeRoundTrip(c: ProxyConfig)
    requires ':' !in c.protocol && '@' !in c.protocol && KeySafe(c)
    ensures KeyOfAnyScheme(HttpUrl(ToDict(c))) == HostPort(c)
    ensures !Live(MarkFailedAnyScheme(PoolOf(c), ToDict(c)), c)
  {
    var hp := HostPort(c);
    IntToStringPlain(c.port);
    var url := ProxyUrl(c);
    if Truthy(c.username) && Truthy(c.password) {
      var a := c.protocol + "://" + c.username.value + ":" + c.password.value;
      assert url == a + "@" + hp;
      SplitAtSign(a, hp);
    } else {
      assert url == c.protocol + "://" + hp;
      assert '@' !in url;
      AfterScheme(c.protocol, hp);
    }
  }

  /** A one-proxy pool. */
  function PoolOf(c: ProxyConfig): Pool {
    Pool([c], 0, {}, map[])
  }
}
