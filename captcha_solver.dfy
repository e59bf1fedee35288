/**
 * The CAPTCHA helper of the scraper (scrapegoat/app/scraping/captcha_solver.py):
 * recognising a CAPTCHA in a page, recognising a Cloudflare challenge
 * response, and the create-then-poll protocol of the solving service.
 *
 * The regular expressions of `detect_captcha_in_html` are written out as
 * leftmost scans; `IGNORECASE` is matching against the lower-cased page,
 * captured text is taken from the page as it is. The service's HTTP
 * replies are parameters; the two-second sleeps are the `elapsed` count.
 */
module CaptchaSolver {
  import opened Wrappers
  import opened Json
  import opened Text

  // ---------------------------------------------------------------------
  // Configuration and task payloads
  // ---------------------------------------------------------------------

  /** The key in use: the one given, else the environment's; `is_available` holds iff it is non-empty. */
  function ApiKey(given: Option<string>, env: Option<string>): (k: Option<string>)
    ensures k.Some? && k.value != [] <==> (given.Some? && given.value != []) || (env.Some? && env.value != [])
  {
    if given.Some? && given.value != [] then given else env
  }

  predicate IsAvailable(given: Option<string>, env: Option<string>) {
    var k := ApiKey(given, env);
    k.Some? && k.value != []
  }

  /** The tasks the solver creates, by the service's base task name. */
  datatype Task = RecaptchaV2Task | RecaptchaV3Task | TurnstileTask | HCaptchaTask | CloudflareTask | AwsWafTask
  {
    function BaseName(): string {
      match this
      case RecaptchaV2Task => "ReCaptchaV2Task"
      case RecaptchaV3Task => "ReCaptchaV3Task"
      case TurnstileTask => "AntiTurnstileTask"
      case HCaptchaTask => "HCaptchaTask"
      case CloudflareTask => "AntiCloudflareTask"
      case AwsWafTask => "AntiAwsWafTask"
    }
  }

  predicate HasProxy(proxy: Option<string>) {
    proxy.Some? && proxy.value != []
  }

  /** The proxy-less variant is used exactly when no proxy is given. */
  function TaskType(t: Task, proxy: Option<string>): string {
    if HasProxy(proxy) then t.BaseName() else t.BaseName() + "ProxyLess"
  }

  /**
   * The fields of the `task` object sent to `createTask`: a site key for
   * the tasks that take one, the page action for reCAPTCHA v3 and the
   * proxy when given.
   */
  function TaskFields(t: Task, websiteUrl: string, siteKey: string, proxy: Option<string>, pageAction: string)
    : (r: map<string, Json>)
    ensures "type" in r && "websiteURL" in r && r["websiteURL"] == JStr(websiteUrl)
    ensures "websiteKey" in r <==> t != CloudflareTask && t != AwsWafTask
    ensures "pageAction" in r <==> t == RecaptchaV3Task
    ensures t == RecaptchaV3Task ==> r["pageAction"] == JStr(pageAction)
    ensures "proxy" in r <==> HasProxy(proxy)
    ensures forall k :: k in r ==> k in {"type", "websiteURL", "websiteKey", "pageAction", "proxy"}
  {
    var base := map["type" := JStr(TaskType(t, proxy)), "websiteURL" := JStr(websiteUrl)];
    var keyed := if t == CloudflareTask || t == AwsWafTask then base else base["websiteKey" := JStr(siteKey)];
    var acted := if t == RecaptchaV3Task then keyed["pageAction" := JStr(pageAction)] else keyed;
    if HasProxy(proxy) then acted["proxy" := JStr(proxy.value)] else acted
  }

  /**
   * The `task` object: its fields, and for a Cloudflare challenge the
   * caller's metadata, applied last so that it may overwrite any field.
   */
  function TaskPayload(t: Task, websiteUrl: string, siteKey: string, proxy: Option<string>, pageAction: string,
                       metadata: map<string, string>): (r: map<string, Json>)
    ensures t != CloudflareTask ==> r == TaskFields(t, websiteUrl, siteKey, proxy, pageAction)
    ensures t == CloudflareTask ==>
              var fields := TaskFields(t, websiteUrl, siteKey, proxy, pageAction);
              r.Keys == fields.Keys + metadata.Keys &&
              (forall k :: k in metadata ==> r[k] == JStr(metadata[k])) &&
              (forall k :: k in fields && k !in metadata ==> r[k] == fields[k])
  {
    var fields := TaskFields(t, websiteUrl, siteKey, proxy, pageAction);
    if t == CloudflareTask then fields + map k | k in metadata :: JStr(metadata[k]) else fields
  }

  /**
   * The task names the proxy-less variant exactly when the payload carries
   * no proxy (for a Cloudflare challenge, unless the metadata sets the type
   * or the proxy itself).
   */
  lemma ProxyLessIffNoProxy(t: Task, websiteUrl: string, siteKey: string, proxy: Option<string>, pageAction: string,
                            metadata: map<string, string>)
    requires t == CloudflareTask ==> "type" !in metadata && "proxy" !in metadata
    ensures var p := TaskPayload(t, websiteUrl, siteKey, proxy, pageAction, metadata);
            ("proxy" in p <==> HasProxy(proxy)) &&
            (p["type"] == JStr(t.BaseName() + "ProxyLess") <==> !HasProxy(proxy)) &&
            (p["type"] == JStr(t.BaseName()) <==> HasProxy(proxy))
  {
    var p := TaskPayload(t, websiteUrl, siteKey, proxy, pageAction, metadata);
    assert p["type"] == JStr(TaskType(t, proxy));
    assert |t.BaseName() + "ProxyLess"| != |t.BaseName()|;
  }

  // ---------------------------------------------------------------------
  // Creating a task and polling for its result
  // ---------------------------------------------------------------------

  const MaxWait: nat := 120
  const PollInterval: nat := 2
  const MaxPolls: nat := MaxWait / PollInterval

  /** Python's `x != 0` is false for 0, 0.0 and False. */
  predicate EqualsZero(j: Json) {
    j == JInt(0) || j == JFloat(0.0) || j == JBool(false)
  }

  /** What the caller takes from a ready solution. */
  datatype Pick = Field(key: string) | WholeSolution | HCaptchaToken

  /** The value a "ready" reply yields; reading a field of a solution that is not an object raises. */
  function Solution(reply: map<string, Json>, pick: Pick): Attempt<Json> {
    var sol := if "solution" in reply then reply["solution"] else JObj(map[]);
    match pick
    case WholeSolution => Ok(sol)
    case Field(key) =>
      if !sol.JObj? then Raises
      else Ok(if key in sol.fields then sol.fields[key] else JStr(""))
    case HCaptchaToken =>
      if !sol.JObj? then Raises
      else if "gRecaptchaResponse" in sol.fields then Ok(sol.fields["gRecaptchaResponse"])
      else Ok(if "token" in sol.fields then sol.fields["token"] else JStr(""))
  }

  /** A reply that is neither ready nor failed: the task is still being solved. */
  predicate Pending(reply: Attempt<map<string, Json>>) {
    reply.Ok? && Get(reply.value, "status") != JStr("ready") && Get(reply.value, "status") != JStr("failed")
  }

  /**
   * Polls number k, k + 1, ... up to the limit: the outcome and the number
   * of polls made in all. A failed request raises, a "failed" status
   * raises, running out of polls raises the timeout.
   */
  function PollFrom(replies: nat -> Attempt<map<string, Json>>, k: nat, pick: Pick): (r: (Attempt<Json>, nat))
    requires k <= MaxPolls
    decreases MaxPolls - k
  {
    if k == MaxPolls then (Raises, MaxPolls)
    else
      var reply := replies(k);
      if reply.Raises? then (Raises, k + 1)
      else
        var status := Get(reply.value, "status");
        if status == JStr("ready") then (Solution(reply.value, pick), k + 1)
        else if status == JStr("failed") then (Raises, k + 1)
        else PollFrom(replies, k + 1, pick)
  }

  /** `_solve_task`: create the task, then poll for its result. */
  function SolveTask(create: Attempt<map<string, Json>>, replies: nat -> Attempt<map<string, Json>>, pick: Pick)
    : (r: (Attempt<Json>, nat))
    ensures r.1 <= MaxPolls
    ensures r.0.Ok? ==> create.Ok? && 0 < r.1 && replies(r.1 - 1).Ok? &&
                        Get(replies(r.1 - 1).value, "status") == JStr("ready")
  {
    if create.Raises? || !EqualsZero(Get(create.value, "errorId")) || !Get(create.value, "taskId").Truthy() then (Raises, 0)
    else
      PollFromBounds(replies, 0, pick);
      PollFrom(replies, 0, pick)
  }

  /**
   * Polling from k ends after at most the limit of polls; it returns a
   * value only from a "ready" reply, the last one made, after pending ones.
   */
  lemma {:induction false} PollFromBounds(replies: nat -> Attempt<map<string, Json>>, k: nat, pick: Pick)
    requires k <= MaxPolls
    ensures var (res, polls) := PollFrom(replies, k, pick);
            k <= polls <= MaxPolls && (k < MaxPolls ==> k < polls) &&
            (forall j :: k <= j < polls - 1 ==> Pending(replies(j))) &&
            (res.Ok? ==> replies(polls - 1).Ok? && Get(replies(polls - 1).value, "status") == JStr("ready") &&
                         res == Solution(replies(polls - 1).value, pick))
    decreases MaxPolls - k
  {
    if k < MaxPolls {
      var reply := replies(k);
      if reply.Ok? && Get(reply.value, "status") != JStr("ready") && Get(reply.value, "status") != JStr("failed") {
        PollFromBounds(replies, k + 1, pick);
      }
    }
  }

  /** With every reply pending the solver gives up with a timeout after exactly the limit of polls. */
  lemma {:induction false} PollFromTimeout(replies: nat -> Attempt<map<string, Json>>, k: nat, pick: Pick)
    requires k <= MaxPolls
    requires forall j :: k <= j < MaxPolls ==> Pending(replies(j))
    ensures PollFrom(replies, k, pick) == (Raises, MaxPolls)
    decreases MaxPolls - k
  {
    if k < MaxPolls {
      PollFromTimeout(replies, k + 1, pick);
    }
  }

  /**
   * `_solve_task`: a creation error or a missing task id raises before any
   * poll; otherwise at most 60 polls (two seconds apart, up to 120 s) are
   * made, and a value is returned only from a "ready" reply.
   */
  lemma SolveTaskBounds(create: Attempt<map<string, Json>>, replies: nat -> Attempt<map<string, Json>>, pick: Pick)
    ensures var (res, polls) := SolveTask(create, replies, pick);
            polls <= 60 && PollInterval * polls <= MaxWait &&
            (polls == 0 <==> create.Raises? || !EqualsZero(Get(create.value, "errorId")) ||
                             !Get(create.value, "taskId").Truthy()) &&
            (polls == 0 ==> res.Raises?) &&
            (res.Ok? ==> replies(polls - 1).Ok? && Get(replies(polls - 1).value, "status") == JStr("ready"))
  {
    PollFromBounds(replies, 0, pick);
  }

  /** The polling loop of `_solve_task`, counting `elapsed` in seconds. */
  method SolveTaskLoop(create: Attempt<map<string, Json>>, replies: nat -> Attempt<map<string, Json>>, pick: Pick)
    returns (res: Attempt<Json>, polls: nat)
    ensures (res, polls) == SolveTask(create, replies, pick)
  {
    polls := 0;
    if create.Raises? || !EqualsZero(Get(create.value, "errorId")) || !Get(create.value, "taskId").Truthy() {
      return Raises, 0;
    }
    var elapsed := 0;
    while elapsed < MaxWait
      invariant elapsed == PollInterval * polls && polls <= MaxPolls
      invariant PollFrom(replies, polls, pick) == SolveTask(create, replies, pick)
      decreases MaxWait - elapsed
    {
      elapsed := elapsed + PollInterval;
      var reply := replies(polls);
      polls := polls + 1;
      if reply.Raises? {
        return Raises, polls;
      }
      var status := Get(reply.value, "status");
      if status == JStr("ready") {
        return Solution(reply.value, pick), polls;
      }
      if status == JStr("failed") {
        return Raises, polls;
      }
    }
    res := Raises;
  }

  // ---------------------------------------------------------------------
  // Detecting a CAPTCHA in a page
  // ---------------------------------------------------------------------

  datatype Kind = RecaptchaV2 | RecaptchaV3 | HCaptcha | Turnstile | CloudflareChallenge | AwsWaf
  {
    function Name(): string {
      match this
      case RecaptchaV2 => "recaptcha_v2"
      case RecaptchaV3 => "recaptcha_v3"
      case HCaptcha => "hcaptcha"
      case Turnstile => "turnstile"
      case CloudflareChallenge => "cloudflare_challenge"
      case AwsWaf => "aws_waf"
    }
  }

  /** The `{"type": ..., "site_key": ...}` result. */
  datatype Detection = Detection(kind: Kind, siteKey: string)

  const SiteKeyAttr: string := "data-sitekey="
  const RenderCall: string := "grecaptcha.render"
  const ApiScript: string := "recaptcha/api.js"
  const RenderParam: string := ApiScript + "?render="
  const HCaptchaScript: string := "hcaptcha.com/1/api.js"
  const HCaptchaWord: string := "hcaptcha"
  const TurnstileScript: string := "challenges.cloudflare.com/turnstile"
  const TurnstileClass: string := "cf-turnstile"
  const SiteKeyWord: string := "sitekey"

  predicate IsQuote(c: char) { c == '"' || c == '\'' }

  /** `pat` (lower case) occurs in the lower-cased page at `i`. */
  predicate At(low: string, i: nat, pat: string) {
    i + |pat| <= |low| && low[i..i + |pat|] == pat
  }

  /** The length of the run of non-quote characters from `j`. */
  function NonQuoteRun(s: string, j: nat): (n: nat)
    requires j <= |s|
    ensures j + n <= |s|
    ensures forall k :: j <= k < j + n ==> !IsQuote(s[k])
    decreases |s| - j
  {
    if j == |s| || IsQuote(s[j]) then 0 else 1 + NonQuoteRun(s, j + 1)
  }

  /** `["']([^"']+)["']` at `j`: the quoted text and the position after the closing quote. */
  function QuotedAt(s: string, j: nat): (r: Option<(string, nat)>)
    requires j <= |s|
    ensures r.Some? ==> r.value.0 != [] && r.value.1 <= |s| && forall c :: c in r.value.0 ==> !IsQuote(c)
  {
    if j < |s| && IsQuote(s[j]) then
      var n := NonQuoteRun(s, j + 1);
      if n > 0 && j + 1 + n < |s| && IsQuote(s[j + 1 + n]) then Some((s[j + 1..j + 1 + n], j + 2 + n)) else None
    else None
  }

  /**
   * The leftmost match of the reCAPTCHA v2 pattern from `i`: `Some(Some(key))`
   * where its `data-sitekey` branch matched, `Some(None)` where one of the
   * literal branches did.
   */
  function V2Search(html: string, low: string, i: nat): (r: Option<Option<string>>)
    requires |low| == |html| && i <= |html|
    ensures r.Some? && r.value.Some? ==> forall c :: c in r.value.value ==> !IsQuote(c)
    decreases |html| - i
  {
    if At(low, i, SiteKeyAttr) && QuotedAt(html, i + |SiteKeyAttr|).Some? then Some(Some(QuotedAt(html, i + |SiteKeyAttr|).value.0))
    else if At(low, i, RenderCall) || At(low, i, ApiScript) then Some(None)
    else if i == |html| then None
    else V2Search(html, low, i + 1)
  }

  predicate KeyChar(c: char) { IsDigit(c) || IsAlpha(c) || c == '_' || c == '-' }

  /** The leftmost `["']([0-9A-Za-z_-]{40})["']` from `i`, case-sensitive. */
  function Key40Search(html: string, i: nat): (r: Option<string>)
    ensures r.Some? ==> |r.value| == 40 && forall c :: c in r.value ==> KeyChar(c)
    decreases |html| - i
  {
    if i + 42 <= |html| && IsQuote(html[i]) && (forall k :: i + 1 <= k < i + 41 ==> KeyChar(html[k])) && IsQuote(html[i + 41])
    then Some(html[i + 1..i + 41])
    else if i >= |html| then None
    else Key40Search(html, i + 1)
  }

  /** `[^"'&\s]`. */
  predicate RenderChar(c: char) { !IsQuote(c) && c != '&' && !IsSpace(c) }

  function RenderRun(s: string, j: nat): (n: nat)
    requires j <= |s|
    ensures j + n <= |s|
    ensures forall k :: j <= k < j + n ==> RenderChar(s[k])
    decreases |s| - j
  {
    if j == |s| || !RenderChar(s[j]) then 0 else 1 + RenderRun(s, j + 1)
  }

  /** The leftmost match of the reCAPTCHA v3 pattern from `i`: the `render=` value. */
  function V3Search(html: string, low: string, i: nat): (r: Option<string>)
    requires |low| == |html| && i <= |html|
    decreases |html| - i
  {
    if At(low, i, RenderParam) && RenderRun(html, i + |RenderParam|) > 0
    then Some(html[i + |RenderParam|..i + |RenderParam| + RenderRun(html, i + |RenderParam|)])
    else if i == |html| then None
    else V3Search(html, low, i + 1)
  }

  /** `.*hcaptcha` from `j`: the word occurs before the end of the line. */
  function OnLine(low: string, j: nat): bool
    requires j <= |low|
    decreases |low| - j
  {
    if At(low, j, HCaptchaWord) then true
    else if j == |low| || low[j] == '\n' then false
    else OnLine(low, j + 1)
  }

  /** The leftmost match of the hCaptcha pattern from `i`, with its captured key where the attribute branch matched. */
  function HSearch(html: string, low: string, i: nat): (r: Option<Option<string>>)
    requires |low| == |html| && i <= |html|
    ensures r.Some? && r.value.Some? ==> forall c :: c in r.value.value ==> !IsQuote(c)
    decreases |html| - i
  {
    if At(low, i, HCaptchaScript) then Some(None)
    else if At(low, i, SiteKeyAttr) && QuotedAt(html, i + |SiteKeyAttr|).Some? &&
            OnLine(low, QuotedAt(html, i + |SiteKeyAttr|).value.1)
    then Some(Some(QuotedAt(html, i + |SiteKeyAttr|).value.0))
    else if i == |html| then None
    else HSearch(html, low, i + 1)
  }

  function SpaceRun(s: string, j: nat): (n: nat)
    requires j <= |s|
    ensures j + n <= |s|
    decreases |s| - j
  {
    if j == |s| || !IsSpace(s[j]) then 0 else 1 + SpaceRun(s, j + 1)
  }

  /** The leftmost `["']sitekey["']:\s*["']([^"']+)["']` from `i`. */
  function TurnstileKeySearch(html: string, low: string, i: nat): (r: Option<string>)
    requires |low| == |html| && i <= |html|
    ensures r.Some? ==> forall c :: c in r.value ==> !IsQuote(c)
    decreases |html| - i
  {
    if i + 10 <= |html| && IsQuote(html[i]) && At(low, i + 1, SiteKeyWord) && IsQuote(html[i + 8]) && html[i + 9] == ':' &&
       QuotedAt(html, i + 10 + SpaceRun(html, i + 10)).Some?
    then Some(QuotedAt(html, i + 10 + SpaceRun(html, i + 10)).value.0)
    else if i == |html| then None
    else TurnstileKeySearch(html, low, i + 1)
  }

  predicate TurnstileMarked(low: string) {
    Contains(low, TurnstileScript) || Contains(low, TurnstileClass)
  }

  predicate ChallengeMarked(low: string) {
    Contains(low, "cloudflare") && (Contains(low, "challenge") || Contains(low, "checking your browser"))
  }

  predicate AwsMarked(low: string) {
    Contains(low, "aws-waf") || Contains(low, "x-aws-waf")
  }

  /** `detect_captcha_in_html`: the rules in order, the first that matches decides. */
  function Detect(html: string): (r: Option<Detection>)
    ensures r.None? ==> !TurnstileMarked(Lower(html)) && !ChallengeMarked(Lower(html)) && !AwsMarked(Lower(html))
    ensures r.Some? && r.value.kind in {CloudflareChallenge, AwsWaf} ==> r.value.siteKey == ""
  {
    var low := Lower(html);
    match V2Search(html, low, 0)
    case Some(group) =>
      var key40 := Key40Search(html, 0);
      Some(Detection(RecaptchaV2, if key40.Some? then key40.value else group.UnwrapOr("")))
    case None =>
      match V3Search(html, low, 0)
      case Some(key) => Some(Detection(RecaptchaV3, key))
      case None =>
        match HSearch(html, low, 0)
        case Some(group) => Some(Detection(HCaptcha, group.UnwrapOr("")))
        case None =>
          if TurnstileMarked(low) then Some(Detection(Turnstile, TurnstileKeySearch(html, low, 0).UnwrapOr("")))
          else if ChallengeMarked(low) then Some(Detection(CloudflareChallenge, ""))
          else if AwsMarked(low) then Some(Detection(AwsWaf, ""))
          else None
  }

  /** A v3 match lies at some position at or after `i`. */
  lemma {:induction false} V3Witness(html: string, low: string, i: nat) returns (p: nat)
    requires |low| == |html| && i <= |html|
    requires V3Search(html, low, i).Some?
    ensures i <= p && At(low, p, RenderParam)
    decreases |html| - i
  {
    if At(low, i, RenderParam) && RenderRun(html, i + |RenderParam|) > 0 {
      p := i;
    } else {
      p := V3Witness(html, low, i + 1);
    }
  }

  /** A match of a pattern is a match of each of its prefixes. */
  lemma AtPrefix(low: string, p: nat, a: string, b: string)
    requires At(low, p, a + b)
    ensures At(low, p, a)
  {
    assert low[p..p + |a|] == low[p..p + |a + b|][..|a|];
    assert (a + b)[..|a|] == a;
  }

  /** The v2 search from `i` succeeds when the script name occurs at or after `i`. */
  lemma {:induction false} V2Finds(html: string, low: string, i: nat, p: nat)
    requires |low| == |html| && i <= p <= |html|
    requires At(low, p, ApiScript)
    ensures V2Search(html, low, i).Some?
    decreases p - i
  {
    if i < p && !(At(low, i, SiteKeyAttr) && QuotedAt(html, i + |SiteKeyAttr|).Some?) &&
       !At(low, i, RenderCall) && !At(low, i, ApiScript) {
      V2Finds(html, low, i + 1, p);
    }
  }

  /**
   * Every page the v3 pattern matches also matches the v2 pattern, which
   * is tried first: `recaptcha_v3` is never reported.
   */
  lemma V3NeverReported(html: string)
    ensures Detect(html).Some? ==> Detect(html).value.kind != RecaptchaV3
  {
    var low := Lower(html);
    if V3Search(html, low, 0).Some? {
      var p := V3Witness(html, low, 0);
      AtPrefix(low, p, ApiScript, "?render=");
      V2Finds(html, low, 0, p);
    }
  }

  /**
   * The generic Cloudflare rule: `cloudflare_challenge` (with an empty site
   * key) is reported exactly when none of the earlier rules matches and the
   * page mentions "cloudflare" together with "challenge" or "checking your
   * browser".
   */
  lemma ChallengeRule(html: string)
    ensures var low := Lower(html);
            (Detect(html).Some? && Detect(html).value.kind == CloudflareChallenge) <==>
              (V2Search(html, low, 0).None? && V3Search(html, low, 0).None? && HSearch(html, low, 0).None? &&
               !TurnstileMarked(low) && ChallengeMarked(low))
    ensures Detect(html).Some? && Detect(html).value.kind == CloudflareChallenge ==> Detect(html).value.siteKey == ""
  {
  }

  /**
   * Nothing is reported exactly when no rule matches; what is reported
   * carries a site key without quotes, a 40-character key when the v2 rule
   * found one, and an empty key for the challenge and AWS WAF rules.
   */
  lemma DetectOutcome(html: string)
    ensures var low := Lower(html);
            Detect(html).None? <==>
              V2Search(html, low, 0).None? && V3Search(html, low, 0).None? && HSearch(html, low, 0).None? &&
              !TurnstileMarked(low) && !ChallengeMarked(low) && !AwsMarked(low)
    ensures Detect(html).Some? ==> forall c :: c in Detect(html).value.siteKey ==> !IsQuote(c)
    ensures Detect(html).Some? && Detect(html).value.kind == RecaptchaV2 && Key40Search(html, 0).Some? ==>
              |Detect(html).value.siteKey| == 40
    ensures Detect(html).Some? && Detect(html).value.kind in {CloudflareChallenge, AwsWaf} ==> Detect(html).value.siteKey == ""
  {
    var low := Lower(html);
    if V2Search(html, low, 0).None? {
      var v3 := V3Search(html, low, 0);
      if v3.Some? {
        var p := V3Witness(html, low, 0);
        AtPrefix(low, p, ApiScript, "?render=");
        V2Finds(html, low, 0, p);
      }
    } else {
      var key40 := Key40Search(html, 0);
      if key40.Some? {
        assert forall c :: c in key40.value ==> KeyChar(c);
      }
    }
  }

  /** The reCAPTCHA v2 rule wins over every later rule. */
  lemma V2First(html: string)
    requires V2Search(html, Lower(html), 0).Some?
    ensures Detect(html).Some? && Detect(html).value.kind == RecaptchaV2
  {
  }

  // ---------------------------------------------------------------------
  // Recognising a Cloudflare challenge response
  // ---------------------------------------------------------------------

  const ChallengeIndicators: seq<string> :=
    ["checking your browser", "cloudflare", "cf-ray", "just a moment", "challenge-platform"]

  /** `is_cloudflare_challenge`: only a 403 or 503 can be a challenge, and then iff an indicator occurs. */
  predicate IsCloudflareChallenge(status: int, html: string) {
    (status == 403 || status == 503) &&
    exists k :: 0 <= k < |ChallengeIndicators| && Contains(Lower(html), ChallengeIndicators[k])
  }

  /** Any other status is never a challenge; a 403 or 503 page that mentions Cloudflare always is. */
  lemma ChallengeStatus(status: int, html: string)
    ensures status != 403 && status != 503 ==> !IsCloudflareChallenge(status, html)
    ensures (status == 403 || status == 503) && Contains(Lower(html), "cloudflare") ==> IsCloudflareChallenge(status, html)
  {
    if (status == 403 || status == 503) && Contains(Lower(html), "cloudflare") {
      assert ChallengeIndicators[1] == "cloudflare";
    }
  }

  /** A page the detector reports as a generic challenge is a challenge response when served with 403 or 503. */
  lemma DetectedChallengeIsChallenge(status: int, html: string)
    requires status == 403 || status == 503
    requires Detect(html).Some? && Detect(html).value.kind == CloudflareChallenge
    ensures IsCloudflareChallenge(status, html)
  {
    ChallengeRule(html);
    ChallengeStatus(status, html);
  }
}
