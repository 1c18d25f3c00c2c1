/** `CaptchaDetector` of the anti-bot toolkit: literal, case-insensitive substring
    checks of a page body (and optionally its URL) against fixed vocabularies, and
    the status-code-first block test built on them.

    An absent body (`html=None`) and an empty body behave the same in every check,
    so a body is a plain string here and `""` stands for both. */
module Captcha {
  import opened Common
  import opened Text

  /** Text that suggests a CAPTCHA or a bot-detection page. */
  const Indicators: seq<string> := [
    "captcha", "recaptcha", "hcaptcha", "challenge", "verify you are human",
    "verify you're human", "are you a robot", "bot detection", "access denied",
    "blocked", "unusual traffic", "automated access", "please verify",
    "security check", "cloudflare", "ddos protection", "incapsula",
    "distil networks", "imperva", "perimeterx", "datadome"
  ]

  /** URL fragments of known challenge pages. */
  const ChallengeUrls: seq<string> := [
    "google.com/recaptcha", "hcaptcha.com", "challenges.cloudflare.com", "captcha", "challenge"
  ]

  /** Markup of common CAPTCHA widgets: `id="captcha"`, `class="captcha"`, `id="recaptcha"`,
      `class="g-recaptcha"`, `class="h-captcha"`, `data-sitekey=` and `cf-turnstile`; the
      first five are written around the word they share. */
  const Elements: seq<string> := [
    "id=\"" + "captcha" + "\"", "class=\"" + "captcha" + "\"", "id=\"re" + "captcha" + "\"",
    "class=\"g-re" + "captcha" + "\"", "class=\"h-" + "captcha" + "\"", "data-sitekey=", "cf-turnstile"
  ]

  /** Status codes treated as a block whatever the body says. */
  const BlockedCodes: set<int> := {403, 429, 503}

  /** `is_captcha_page(html, url)`: an indicator in the lowered body, a challenge
      fragment in the lowered URL (when a non-empty URL is given), or a widget marker
      in the lowered body. */
  predicate IsCaptchaPage(html: string, url: Option<string>) {
    var h := Lower(html);
    AnyIn(Indicators, h)
    || (url.Some? && url.value != "" && AnyIn(ChallengeUrls, Lower(url.value)))
    || AnyIn(Elements, h)
  }

  /** `is_blocked(status_code, html)`. */
  predicate IsBlocked(status: int, html: string) {
    status in BlockedCodes || (html != "" && IsCaptchaPage(html, None))
  }

  const UnknownReason := "Unknown block reason"

  /** `get_block_reason(status_code, html)`. */
  function GetBlockReason(status: int, html: string): string {
    if status == 403 then "Access Forbidden - IP may be blocked"
    else if status == 429 then "Too Many Requests - Rate limited"
    else if status == 503 then "Service Unavailable - May be under protection"
    else if html != "" && IsCaptchaPage(html, None) then "CAPTCHA Challenge Detected"
    else UnknownReason
  }

  /** `get_block_reason` explains exactly the blocked responses, and the status code
      is consulted before the body. */
  lemma BlockReasonMatchesIsBlocked(status: int, html: string)
    ensures GetBlockReason(status, html) != UnknownReason <==> IsBlocked(status, html)
    ensures status in BlockedCodes ==> GetBlockReason(status, html) == GetBlockReason(status, "")
  {
  }

  /** Adding text around a page never turns a detected CAPTCHA into an undetected one. */
  lemma CaptchaPageExtend(html: string, url: Option<string>, pre: string, post: string)
    requires IsCaptchaPage(html, url)
    ensures IsCaptchaPage(pre + html + post, url)
  {
    LowerAppend(pre, html);
    LowerAppend(pre + html, post);
    var h := Lower(html);
    assert Lower(pre + html + post) == Lower(pre) + h + Lower(post);
    if AnyIn(Indicators, h) {
      AnyInExtend(Indicators, h, Lower(pre), Lower(post));
    } else if AnyIn(Elements, h) {
      AnyInExtend(Elements, h, Lower(pre), Lower(post));
    }
  }

  /** The same holds for `is_blocked`. */
  lemma BlockedExtend(status: int, html: string, pre: string, post: string)
    requires IsBlocked(status, html)
    ensures IsBlocked(status, pre + html + post)
  {
    if status !in BlockedCodes {
      CaptchaPageExtend(html, None, pre, post);
    }
  }

  lemma ContainsTransitive(s: string, p: string, q: string)
    requires Contains(s, p) && Contains(p, q)
    ensures Contains(s, q)
  {
    var i :| 0 <= i <= |s| && MatchAt(s, p, i);
    var j :| 0 <= j <= |p| && MatchAt(p, q, j);
    assert s[i..i + |p|] == p;
    forall t | 0 <= t < |q|
      ensures s[i + j + t] == q[t]
    {
      assert s[i + j + t] == p[j + t];
    }
    assert s[i + j..i + j + |q|] == q;
    assert MatchAt(s, q, i + j);
  }

  /** Five of the seven widget markers contain the indicator "captcha", so only
      "data-sitekey=" and "cf-turnstile" can add a detection the indicators miss. */
  lemma WidgetMarkersMostlyRedundant(html: string, url: Option<string>)
    ensures IsCaptchaPage(html, url) <==>
              AnyIn(Indicators, Lower(html))
              || (url.Some? && url.value != "" && AnyIn(ChallengeUrls, Lower(url.value)))
              || Contains(Lower(html), "data-sitekey=")
              || Contains(Lower(html), "cf-turnstile")
  {
    var h := Lower(html);
    if AnyIn(Elements, h) {
      var k :| 0 <= k < |Elements| && Contains(h, Elements[k]);
      if k < 5 {
        var pre := ["id=\"", "class=\"", "id=\"re", "class=\"g-re", "class=\"h-"][k];
        assert Elements[k] == pre + "captcha" + "\"";
        assert MatchAt("captcha", "captcha", 0);
        ContainsExtend("captcha", "captcha", pre, "\"");
        ContainsTransitive(h, Elements[k], "captcha");
        assert Contains(h, Indicators[0]);
      }
    }
    if Contains(h, "data-sitekey=") {
      assert Contains(h, Elements[5]);
    }
    if Contains(h, "cf-turnstile") {
      assert Contains(h, Elements[6]);
    }
  }

  // The sample pages of the component test, the first one written in pieces.
  const NormalHead := "<html><body>"
  const NormalTitle := "<h1>Welcome</h1>"
  const NormalText := "<p>Content here</p>"
  const NormalTail := "</body></html>"
  const NormalPage := NormalHead + NormalTitle + NormalText + NormalTail
  const RecaptchaHead := "<html><body><div class='g-re"
  const RecaptchaTail := "' data-sitekey='xxx'></div></body></html>"
  const RecaptchaPage := RecaptchaHead + "captcha" + RecaptchaTail
  const DeniedHead := "<html><body><h1>"
  const DeniedTail := "</h1><p>Unusual traffic detected</p></body></html>"
  const DeniedPage := DeniedHead + "Access Denied" + DeniedTail

  // The lemmas from here to `NormalPageNoElement` decide the plain sample page. They are
  // split letter by letter and indicator group by indicator group only to keep each
  // proof obligation small for the solver.

  /** No piece of the normal page holds `c`. */
  predicate PiecesLack(c: char) {
    c !in NormalHead && c !in NormalTitle && c !in NormalText && c !in NormalTail
  }

  /** The letters "a", "i", "k" and "f" occur in the normal page in neither case. */
  lemma NormalPageLacks(c: char)
    requires PiecesLack(c)
    ensures c !in NormalPage
  {
    assert NormalPage == NormalHead + NormalTitle + NormalText + NormalTail;
  }

  lemma LowerLacks(s: string, c: char, upper: char)
    requires 'A' <= upper <= 'Z' && upper as int + 32 == c as int
    requires c !in s && upper !in s && Kelvin !in s
    ensures c !in Lower(s)
  {
    forall i | 0 <= i < |s|
      ensures Lower(s)[i] != c
    {
      assert Lower(s)[i] == LowerChar(s[i]);
    }
  }

  /** A letter the normal page lacks in both cases is missing from the lowered page. */
  lemma NormalPageLowerLacksLetter(c: char, upper: char)
    requires 'A' <= upper <= 'Z' && upper as int + 32 == c as int
    requires PiecesLack(c) && PiecesLack(upper) && PiecesLack(Kelvin)
    ensures c !in Lower(NormalPage)
  {
    NormalPageLacks(c);
    NormalPageLacks(upper);
    NormalPageLacks(Kelvin);
    LowerLacks(NormalPage, c, upper);
  }

  lemma PiecesLackKelvin() ensures PiecesLack(Kelvin) {
  }

  lemma NormalPageLowerLacksA() ensures 'a' !in Lower(NormalPage) {
    PiecesLackKelvin();
    assert PiecesLack('a') && PiecesLack('A');
    NormalPageLowerLacksLetter('a', 'A');
  }

  lemma NormalPageLowerLacksI() ensures 'i' !in Lower(NormalPage) {
    PiecesLackKelvin();
    assert PiecesLack('i') && PiecesLack('I');
    NormalPageLowerLacksLetter('i', 'I');
  }

  lemma NormalPageLowerLacksK() ensures 'k' !in Lower(NormalPage) {
    PiecesLackKelvin();
    assert PiecesLack('k') && PiecesLack('K');
    NormalPageLowerLacksLetter('k', 'K');
  }

  lemma NormalPageLowerLacksF() ensures 'f' !in Lower(NormalPage) {
    PiecesLackKelvin();
    assert PiecesLack('f') && PiecesLack('F');
    NormalPageLowerLacksLetter('f', 'F');
  }

  /** The lowered plain page lacks the letters "a", "i", "k" and "f". */
  lemma NormalPageLowerLacks()
    ensures 'a' !in Lower(NormalPage) && 'i' !in Lower(NormalPage)
    ensures 'k' !in Lower(NormalPage) && 'f' !in Lower(NormalPage)
  {
    NormalPageLowerLacksA();
    NormalPageLowerLacksI();
    NormalPageLowerLacksK();
    NormalPageLowerLacksF();
  }

  lemma NormalPageNoIndicators0()
    ensures forall k :: 0 <= k < 4 ==> !Contains(Lower(NormalPage), Indicators[k])
  {
    var n := Lower(NormalPage);
    NormalPageLowerLacks();
    MissingCharExcludes(n, Indicators[0], 'a');
    MissingCharExcludes(n, Indicators[1], 'a');
    MissingCharExcludes(n, Indicators[2], 'a');
    MissingCharExcludes(n, Indicators[3], 'a');
  }

  lemma NormalPageNoIndicators1()
    ensures forall k :: 4 <= k < 7 ==> !Contains(Lower(NormalPage), Indicators[k])
  {
    var n := Lower(NormalPage);
    NormalPageLowerLacks();
    MissingCharExcludes(n, Indicators[4], 'a');
    MissingCharExcludes(n, Indicators[5], 'a');
    MissingCharExcludes(n, Indicators[6], 'a');
  }

  lemma NormalPageNoIndicators2()
    ensures forall k :: 7 <= k < 11 ==> !Contains(Lower(NormalPage), Indicators[k])
  {
    var n := Lower(NormalPage);
    NormalPageLowerLacks();
    MissingCharExcludes(n, Indicators[7], 'i');
    MissingCharExcludes(n, Indicators[8], 'a');
    MissingCharExcludes(n, Indicators[9], 'k');
    MissingCharExcludes(n, Indicators[10], 'a');
  }

  lemma NormalPageNoIndicators3()
    ensures forall k :: 11 <= k < 14 ==> !Contains(Lower(NormalPage), Indicators[k])
  {
    var n := Lower(NormalPage);
    NormalPageLowerLacks();
    MissingCharExcludes(n, Indicators[11], 'a');
    MissingCharExcludes(n, Indicators[12], 'a');
    MissingCharExcludes(n, Indicators[13], 'i');
  }

  lemma NormalPageNoIndicators4()
    ensures forall k :: 14 <= k < 18 ==> !Contains(Lower(NormalPage), Indicators[k])
  {
    var n := Lower(NormalPage);
    NormalPageLowerLacks();
    MissingCharExcludes(n, Indicators[14], 'a');
    MissingCharExcludes(n, Indicators[15], 'i');
    MissingCharExcludes(n, Indicators[16], 'a');
    MissingCharExcludes(n, Indicators[17], 'i');
  }

  lemma NormalPageNoIndicators5()
    ensures forall k :: 18 <= k < 21 ==> !Contains(Lower(NormalPage), Indicators[k])
  {
    var n := Lower(NormalPage);
    NormalPageLowerLacks();
    MissingCharExcludes(n, Indicators[18], 'a');
    MissingCharExcludes(n, Indicators[19], 'i');
    MissingCharExcludes(n, Indicators[20], 'a');
  }

  lemma NormalPageNoIndicator()
    ensures !AnyIn(Indicators, Lower(NormalPage))
  {
    NormalPageNoIndicators0();
    NormalPageNoIndicators1();
    NormalPageNoIndicators2();
    NormalPageNoIndicators3();
    NormalPageNoIndicators4();
    NormalPageNoIndicators5();
  }

  lemma NormalPageNoElement()
    ensures !AnyIn(Elements, Lower(NormalPage))
  {
    var n := Lower(NormalPage);
    NormalPageLowerLacks();
    MissingCharExcludes(n, Elements[0], 'a');
    MissingCharExcludes(n, Elements[1], 'a');
    MissingCharExcludes(n, Elements[2], 'a');
    MissingCharExcludes(n, Elements[3], 'a');
    MissingCharExcludes(n, Elements[4], 'a');
    MissingCharExcludes(n, Elements[5], 'a');
    MissingCharExcludes(n, Elements[6], 'i');
  }

  /** The component test's plain page is neither a CAPTCHA page nor blocked with status 200. */
  lemma NormalPageIsClean()
    ensures !IsCaptchaPage(NormalPage, None)
    ensures !IsBlocked(200, NormalPage)
  {
    NormalPageNoIndicator();
    NormalPageNoElement();
  }

  /** The component test's reCAPTCHA widget page and "Access Denied" page are detected. */
  lemma ChallengePagesDetected()
    ensures IsCaptchaPage(RecaptchaPage, None)
    ensures IsCaptchaPage(DeniedPage, None)
    ensures IsBlocked(200, RecaptchaPage) && IsBlocked(200, DeniedPage)
  {
    assert MatchAt("captcha", Indicators[0], 0);
    assert Lower("captcha") == "captcha";
    CaptchaPageExtend("captcha", None, RecaptchaHead, RecaptchaTail);
    assert Lower("Access Denied") == "access denied";
    assert MatchAt("access denied", Indicators[8], 0);
    CaptchaPageExtend("Access Denied", None, DeniedHead, DeniedTail);
  }

  /** The component test's status-code expectations. */
  lemma StatusSamples()
    ensures !IsBlocked(200, "") && IsBlocked(403, "") && IsBlocked(429, "")
    ensures GetBlockReason(403, "") == "Access Forbidden - IP may be blocked"
    ensures GetBlockReason(429, "") == "Too Many Requests - Rate limited"
  {
  }
}
