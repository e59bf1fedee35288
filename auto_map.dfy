/**
 * Auto-mapping of a domain that has no blueprint (`attempt_auto_map`):
 * fetch the page, discover selectors, check what they extract, then commit
 * the blueprint, keep it as a pending draft, or reject it. Every attempt
 * that is not rate-limited marks the domain in `auto_map:last:{domain}`
 * (the one-hour expiry is not modelled).
 *
 * The page fetch, the HTML parser and the language model are oracles held
 * in `Oracles`; the clock and `json.dumps` are parameters as in
 * `BlueprintCommit`.
 */
module AutoMap {
  import opened Wrappers
  import opened Text
  import opened Json
  import Redis
  import Validators
  import ScrapeEnrich
  import SelectorDiscovery
  import BlueprintCommit

  const RatePrefix: string := "auto_map:last:"

  /** The per-domain rate-limit key. */
  function RateKey(domain: string): string { RatePrefix + domain }

  /** Pages shorter than this are treated as empty. */
  const MinHtml: nat := 500

  /** `_fetch_html` keeps at most this many characters. */
  const FetchLimit: nat := 500000

  /** The words that mark a block page, looked for in the lower-cased page. */
  const BlockWords: seq<string> := ["captcha", "challenge", "cf-browser-verification", "hcaptcha", "recaptcha"]

  /** A page with a block word is a block page only below this size. */
  const BlockPageLimit: nat := 50000

  // ---------------------------------------------------------------------
  // _plausibility
  // ---------------------------------------------------------------------

  datatype Plausibility = Plausible | Garbage | EmptyData | Unknown

  /** The verdict read from a reply: the first of the three words it holds, ignoring case and surrounding whitespace. */
  function Classify(reply: string): Plausibility {
    var t := Upper(Strip(reply));
    if Contains(t, "PLAUSIBLE") then Plausible
    else if Contains(t, "GARBAGE") then Garbage
    else if Contains(t, "EMPTY") then EmptyData
    else Unknown
  }

  /**
   * `_plausibility(name, phone, email)`: `key` is `OPENAI_API_KEY` and
   * `reply` the model's answer, `None` when the call raised (a reply
   * without content reads as "").
   */
  function PlausibilityOf(key: Option<string>, reply: Option<string>): (p: Plausibility)
    ensures key.None? || key.value == [] || reply.None? ==> p == Unknown
    ensures p != Unknown ==> key.Some? && key.value != [] && reply.Some?
  {
    if key.None? || key.value == [] then Unknown
    else if reply.None? then Unknown
    else Classify(reply.value)
  }

  /** A reply that is exactly one of the three words, in any case and padding, gets that verdict. */
  lemma ExactReplies(reply: string)
    ensures Upper(Strip(reply)) == "PLAUSIBLE" ==> Classify(reply) == Plausible
    ensures Upper(Strip(reply)) == "GARBAGE" ==> Classify(reply) == Garbage
    ensures Upper(Strip(reply)) == "EMPTY" ==> Classify(reply) == EmptyData
  {
    var t := Upper(Strip(reply));
    if t == "PLAUSIBLE" {
      assert StartsWith(t, "PLAUSIBLE");
    } else if t == "GARBAGE" {
      ContainsLonger(t, "PLAUSIBLE");
      assert StartsWith(t, "GARBAGE");
    } else if t == "EMPTY" {
      ContainsLonger(t, "PLAUSIBLE");
      ContainsLonger(t, "GARBAGE");
      assert StartsWith(t, "EMPTY");
    }
  }

  /** A reply naming both PLAUSIBLE and GARBAGE counts as plausible: the first rule wins. */
  lemma PlausibleBeforeGarbage(reply: string)
    requires Contains(Upper(Strip(reply)), "PLAUSIBLE")
    ensures Classify(reply) == Plausible && Classify(reply) != Garbage
  {
  }

  // ---------------------------------------------------------------------
  // The page
  // ---------------------------------------------------------------------

  /** What one fetch gives: the page text, or the error it raised. */
  datatype Fetch = FetchError(message: string) | Fetched(html: string)

  /** `target_url or f"https://{domain}"`. */
  function PageUrl(domain: string, targetUrl: Option<string>): (url: string)
    ensures targetUrl.Some? && targetUrl.value != [] ==> url == targetUrl.value
    ensures targetUrl.None? || targetUrl.value == [] ==> url == "https://" + domain
  {
    if targetUrl.Some? && targetUrl.value != [] then targetUrl.value else "https://" + domain
  }

  /** `(html or "")[:500_000]`. */
  function Truncate(html: string): (r: string)
    ensures |r| <= FetchLimit && |r| <= |html| && r == html[..|r|]
    ensures |html| <= FetchLimit ==> r == html
    ensures |html| > FetchLimit ==> |r| == FetchLimit
  {
    if |html| <= FetchLimit then html else html[..FetchLimit]
  }

  /** The two fetches: without a browser, then with one if the first raised. */
  function FetchPage(url: string, fetch: (string, bool) -> Fetch): (r: Fetch)
    ensures fetch(url, false).Fetched? ==> r == Fetched(Truncate(fetch(url, false).html))
    ensures fetch(url, false).FetchError? ==> r == if fetch(url, true).Fetched? then Fetched(Truncate(fetch(url, true).html)) else fetch(url, true)
  {
    match fetch(url, false)
    case Fetched(html) => Fetched(Truncate(html))
    case FetchError(_) =>
      match fetch(url, true)
      case Fetched(html) => Fetched(Truncate(html))
      case FetchError(e) => FetchError(e)
  }

  /** A short page holding a block word (ignoring case). */
  predicate BlockPage(html: string) {
    (exists i :: 0 <= i < |BlockWords| && Contains(Lower(html), BlockWords[i])) && |html| < BlockPageLimit
  }

  /** The blueprint built from the discovered selectors. */
  function DraftBlueprint(domain: string, url: string, extraction: map<string, string>): map<string, Json> {
    var target := if domain in ScrapeEnrich.UrlTemplates && ScrapeEnrich.UrlTemplates[domain] != []
                  then ScrapeEnrich.UrlTemplates[domain] else url;
    map["targetUrl" := JStr(target), "method" := JStr("GET"), "responseType" := JStr("html"),
        "extraction" := JObj(map f | f in extraction :: JStr(extraction[f]))]
  }

  /** The draft's extraction map is the discovered one, and its target is the site's template, else the page URL. */
  lemma DraftBlueprintFields(domain: string, url: string, extraction: map<string, string>)
    requires extraction != map[]
    ensures var bp := DraftBlueprint(domain, url, extraction);
            BlueprintCommit.ExtractionOf(bp) == JObj(map f | f in extraction :: JStr(extraction[f]))
            && BlueprintCommit.TargetUrl(bp) == (if domain in ScrapeEnrich.UrlTemplates then ScrapeEnrich.UrlTemplates[domain] else url)
  {
    var bp := DraftBlueprint(domain, url, extraction);
    var f :| f in extraction;
    var ext := map f | f in extraction :: JStr(extraction[f]);
    assert f in ext;
    BlueprintCommit.ExtractionOrder(bp);
  }

  // ---------------------------------------------------------------------
  // attempt_auto_map
  // ---------------------------------------------------------------------

  /**
   * Everything outside the store the attempt depends on: the fetcher (URL
   * and browser flag), whether an HTML parser is installed, the parsed
   * page's `select_one`, the API key and the model's reply to the three
   * extracted strings, and what the commit needs.
   */
  datatype Oracles = Oracles(
    fetch: (string, bool) -> Fetch,
    parserAvailable: bool,
    parse: string -> string -> Option<ScrapeEnrich.Element>,
    openAiKey: Option<string>,
    ask: (string, string, string) -> Option<string>,
    now: string,
    dumps: Json -> string,
    fileWriteOk: bool)

  datatype Status = RateLimited | FetchFailed | EmptyHtml | Captcha | NoSelectors | Committed | CommitError | Pending | Rejected

  /** The returned dictionary. */
  datatype AutoMapResult = AutoMapResult(status: Status, committed: bool, pending: bool,
                                         blueprint: Option<map<string, Json>>, error: Option<string>)

  /** A result with only its status set. */
  function Plain(s: Status): AutoMapResult { AutoMapResult(s, false, false, None, None) }

  /** `x or ''`. */
  function OrEmpty(v: Option<string>): string { if v.Some? then v.value else "" }

  /** `extractor.apply_to_html(html)` for the draft blueprint. */
  function Applied(html: string, extraction: map<string, string>, env: Oracles): map<string, Json> {
    if !env.parserAvailable then map[] else ScrapeEnrich.HtmlResult(html, extraction, env.parse(html))
  }

  /** At least one of the extracted phone, email and name looks right. */
  predicate FormatOk(extracted: map<string, Json>) {
    Validators.IsPlausiblePhone(GetStr(extracted, "phone"))
    || Validators.IsPlausibleEmail(GetStr(extracted, "email"))
    || Validators.IsPlausibleName(GetStr(extracted, "name"))
  }

  /** The model's verdict on the extracted name, phone and email. */
  function Verdict(extracted: map<string, Json>, env: Oracles): Plausibility {
    PlausibilityOf(env.openAiKey, env.ask(OrEmpty(GetStr(extracted, "name")), OrEmpty(GetStr(extracted, "phone")),
                                          OrEmpty(GetStr(extracted, "email"))))
  }

  /** What an attempt decides once the page is in hand. */
  datatype Decision = Stop(status: Status) | CommitDraft(bp: map<string, Json>) | KeepPending(bp: map<string, Json>)

  /** The thresholds: commit at 0.8 with a plausible format and no GARBAGE verdict, keep as pending from 0.5. */
  function Judge(overall: real, bp: map<string, Json>, extracted: map<string, Json>, env: Oracles): Decision {
    if overall >= 0.8 && FormatOk(extracted) && Verdict(extracted, env) != Garbage then CommitDraft(bp)
    else if overall >= 0.5 then KeepPending(bp)
    else Stop(Rejected)
  }

  /** A page passes the early checks: long enough, not a block page, and some selector found. */
  ghost predicate Usable(html: string, env: Oracles) {
    html != [] && |html| >= MinHtml && !BlockPage(html)
    && SelectorDiscovery.Discovery(html, env.parserAvailable, env.parse(html)).0 != map[]
  }

  /** The decision for a fetched page. */
  ghost function Decide(html: string, domain: string, url: string, env: Oracles): Decision {
    if html == [] || |html| < MinHtml then Stop(EmptyHtml)
    else if BlockPage(html) then Stop(Captcha)
    else Found(SelectorDiscovery.Discovery(html, env.parserAvailable, env.parse(html)), html, domain, url, env)
  }

  /** The decision once selectors were searched for: none found, else the thresholds. */
  ghost function Found(found: (map<string, string>, map<string, real>), html: string, domain: string, url: string, env: Oracles)
    : Decision
  {
    if found.0 == map[] then Stop(NoSelectors)
    else Judge(SelectorDiscovery.OverallConfidence(found.1, found.0), DraftBlueprint(domain, url, found.0),
               Applied(html, found.0, env), env)
  }

  /** The store after carrying out a decision, and the result returned. */
  function Outcome(db: Redis.Db, domain: string, d: Decision, env: Oracles): (Redis.Db, AutoMapResult) {
    var rk := RateKey(domain);
    match d
    case Stop(s) => (db.Set(rk, "1"), Plain(s))
    case CommitDraft(bp) =>
      var c := BlueprintCommit.Commit(db, domain, bp, env.now, env.dumps, env.fileWriteOk);
      if c.0 == BlueprintCommit.Committed then (c.1.Set(rk, "1"), AutoMapResult(Committed, true, false, Some(bp), None))
      else (c.1.Set(rk, "1"), Plain(CommitError))
    case KeepPending(bp) =>
      (db.Set(BlueprintCommit.PendingKey(domain), env.dumps(JObj(bp))).Set(rk, "1"),
       AutoMapResult(Pending, false, true, Some(bp), None))
  }

  /** The rate key holds a truthy value. */
  predicate Limited(db: Redis.Db, domain: string) {
    db.Get(RateKey(domain)).Some? && db.Get(RateKey(domain)).value != []
  }

  /** `attempt_auto_map(domain, target_url)` on the store's state: the new state and the result. */
  ghost function AttemptAutoMap(db: Redis.Db, domain: string, targetUrl: Option<string>, env: Oracles)
    : (r: (Redis.Db, AutoMapResult))
    ensures Limited(db, domain) ==> r.0 == db
    ensures !Limited(db, domain) ==> r.0.Get(RateKey(domain)) == Some("1")
  {
    if Limited(db, domain) then (db, Plain(RateLimited))
    else
      var url := PageUrl(domain, targetUrl);
      match FetchPage(url, env.fetch)
      case FetchError(e) => (db.Set(RateKey(domain), "1"), AutoMapResult(FetchFailed, false, false, None, Some(e)))
      case Fetched(html) =>
        OutcomeOf(db, domain, Decide(html, domain, url, env), env);
        Outcome(db, domain, Decide(html, domain, url, env), env)
  }

  // ---------------------------------------------------------------------
  // What an attempt promises
  // ---------------------------------------------------------------------

  /** The keys an attempt writes differ from the commit's keys. */
  lemma RateKeyDiffers(domain: string, other: string)
    ensures RateKey(domain) != BlueprintCommit.PendingKey(other)
    ensures RateKey(domain) != BlueprintCommit.BlueprintKey(other)
    ensures RateKey(domain) != BlueprintCommit.ActiveKey(other)
    ensures RateKey(domain) != BlueprintCommit.NeedMappingKey
  {
    assert RateKey(domain)[0] == 'a';
    assert BlueprintCommit.PendingKey(other)[0] == 'b' && BlueprintCommit.BlueprintKey(other)[0] == 'b';
    assert BlueprintCommit.ActiveKey(other)[0] == 'd' && BlueprintCommit.NeedMappingKey[0] == 'd';
  }

  /** Carrying out any decision sets the rate key and returns the decision's status. */
  lemma OutcomeOf(db: Redis.Db, domain: string, d: Decision, env: Oracles)
    ensures Outcome(db, domain, d, env).0.Get(RateKey(domain)) == Some("1")
    ensures d.Stop? ==> Outcome(db, domain, d, env).1 == Plain(d.status)
    ensures d.CommitDraft? ==> Outcome(db, domain, d, env).1.status in {Committed, CommitError}
    ensures d.KeepPending? ==> Outcome(db, domain, d, env).1 == AutoMapResult(Pending, false, true, Some(d.bp), None)
    ensures !(d.Stop? && d.status in {Committed, Pending}) ==>
              var r := Outcome(db, domain, d, env).1;
              !(r.committed && r.pending) && (r.committed <==> r.status == Committed) && (r.pending <==> r.status == Pending)
  {
  }

  /** A decision that stops early names the check that stopped it; the thresholds never reject a usable page. */
  lemma FoundDecision(found: (map<string, string>, map<string, real>), html: string, domain: string, url: string, env: Oracles)
    requires found.0 != map[] ==> 0.6 <= SelectorDiscovery.OverallConfidence(found.1, found.0)
    ensures Found(found, html, domain, url, env).Stop? ==> Found(found, html, domain, url, env) == Stop(NoSelectors)
  {
  }

  /** A decision that stops names the early check that stopped it: never `rate_limited`, never `rejected`. */
  lemma DecideStops(html: string, domain: string, url: string, env: Oracles)
    ensures Decide(html, domain, url, env).Stop? ==> Decide(html, domain, url, env).status in {EmptyHtml, Captcha, NoSelectors}
  {
    if html != [] && |html| >= MinHtml && !BlockPage(html) {
      var found := SelectorDiscovery.Discovery(html, env.parserAvailable, env.parse(html));
      if found.0 != map[] {
        SelectorDiscovery.DiscoveredConfidence(html, env.parserAvailable, env.parse(html));
      }
      FoundDecision(found, html, domain, url, env);
    }
  }

  /** A rate-limited domain is answered at once and nothing is written. */
  lemma RateLimitedWritesNothing(db: Redis.Db, domain: string, targetUrl: Option<string>, env: Oracles)
    requires Limited(db, domain)
    ensures AttemptAutoMap(db, domain, targetUrl, env).0 == db
    ensures AttemptAutoMap(db, domain, targetUrl, env).1 == Plain(RateLimited)
  {
  }

  /**
   * Every attempt that is not rate-limited leaves the rate key set, and its
   * status is never `rate_limited` or `rejected`: discovered fields carry a
   * confidence of at least 0.6, above the 0.5 needed for a pending draft.
   */
  lemma AttemptMarksDomain(db: Redis.Db, domain: string, targetUrl: Option<string>, env: Oracles)
    requires !Limited(db, domain)
    ensures AttemptAutoMap(db, domain, targetUrl, env).0.Get(RateKey(domain)) == Some("1")
    ensures AttemptAutoMap(db, domain, targetUrl, env).1.status !in {RateLimited, Rejected}
  {
    var url := PageUrl(domain, targetUrl);
    var f := FetchPage(url, env.fetch);
    if f.Fetched? {
      DecideStops(f.html, domain, url, env);
      OutcomeOf(db, domain, Decide(f.html, domain, url, env), env);
    }
  }

  /** No result is both committed and pending, and each flag matches its status. */
  lemma CommittedOrPending(db: Redis.Db, domain: string, targetUrl: Option<string>, env: Oracles)
    ensures var r := AttemptAutoMap(db, domain, targetUrl, env).1;
            !(r.committed && r.pending)
            && (r.committed <==> r.status == Committed)
            && (r.pending <==> r.status == Pending)
  {
    if !Limited(db, domain) {
      var url := PageUrl(domain, targetUrl);
      var f := FetchPage(url, env.fetch);
      if f.Fetched? {
        DecideStops(f.html, domain, url, env);
        OutcomeOf(db, domain, Decide(f.html, domain, url, env), env);
      }
    }
  }

  /** A fetched page under 500 characters stops the attempt as `empty_html`. */
  lemma ShortPageIsEmpty(db: Redis.Db, domain: string, targetUrl: Option<string>, env: Oracles)
    requires !Limited(db, domain)
    requires var f := FetchPage(PageUrl(domain, targetUrl), env.fetch); f.Fetched? && |f.html| < MinHtml
    ensures AttemptAutoMap(db, domain, targetUrl, env).1 == Plain(EmptyHtml)
  {
  }

  /** A long enough fetched page that is a block page stops the attempt as `captcha`. */
  lemma BlockPageIsCaptcha(db: Redis.Db, domain: string, targetUrl: Option<string>, env: Oracles)
    requires !Limited(db, domain)
    requires var f := FetchPage(PageUrl(domain, targetUrl), env.fetch);
             f.Fetched? && |f.html| >= MinHtml && BlockPage(f.html)
    ensures AttemptAutoMap(db, domain, targetUrl, env).1 == Plain(Captcha)
  {
  }

  /** The thresholds: commit, else pending from 0.5, else rejected. */
  lemma JudgeThresholds(overall: real, bp: map<string, Json>, extracted: map<string, Json>, env: Oracles)
    ensures var commits := overall >= 0.8 && FormatOk(extracted) && Verdict(extracted, env) != Garbage;
            (Judge(overall, bp, extracted, env) == CommitDraft(bp) <==> commits)
            && (Judge(overall, bp, extracted, env) == KeepPending(bp) <==> !commits && overall >= 0.5)
            && (Judge(overall, bp, extracted, env) == Stop(Rejected) <==> !commits && overall < 0.5)
  {
  }

  /** On a usable page the attempt carries out the decision the selectors found lead to. */
  lemma UsablePageDecides(db: Redis.Db, domain: string, targetUrl: Option<string>, env: Oracles)
    requires !Limited(db, domain)
    requires var f := FetchPage(PageUrl(domain, targetUrl), env.fetch); f.Fetched? && Usable(f.html, env)
    ensures var url := PageUrl(domain, targetUrl);
            var html := FetchPage(url, env.fetch).html;
            var d := Found(SelectorDiscovery.Discovery(html, env.parserAvailable, env.parse(html)), html, domain, url, env);
            AttemptAutoMap(db, domain, targetUrl, env).1 == Outcome(db, domain, d, env).1
            && AttemptAutoMap(db, domain, targetUrl, env).0 == Outcome(db, domain, d, env).0
  {
  }

  /**
   * Once selectors were found (each with a confidence of at least 0.6, as
   * `discover` gives them), a commit is attempted exactly when the overall
   * confidence reaches 0.8, one of phone, email and name is plausible, and
   * the verdict is not GARBAGE; otherwise the draft built from the
   * selectors is kept as pending. Nothing is rejected.
   */
  lemma CommitThreshold(found: (map<string, string>, map<string, real>), html: string, domain: string, url: string, env: Oracles)
    requires found.0 != map[]
    requires 0.6 <= SelectorDiscovery.OverallConfidence(found.1, found.0)
    ensures var extracted := Applied(html, found.0, env);
            var commits := SelectorDiscovery.OverallConfidence(found.1, found.0) >= 0.8
                           && FormatOk(extracted) && Verdict(extracted, env) != Garbage;
            var d := Found(found, html, domain, url, env);
            (d == CommitDraft(DraftBlueprint(domain, url, found.0)) <==> commits)
            && (d == KeepPending(DraftBlueprint(domain, url, found.0)) <==> !commits)
  {
    var overall := SelectorDiscovery.OverallConfidence(found.1, found.0);
    JudgeThresholds(overall, DraftBlueprint(domain, url, found.0), Applied(html, found.0, env), env);
  }

  /**
   * A committed attempt leaves the domain active and out of the
   * need-mapping set, with no draft and the blueprint's fields in its hash.
   */
  lemma CommittedIsActive(db: Redis.Db, domain: string, d: Decision, env: Oracles)
    requires d.CommitDraft?
    requires Outcome(db, domain, d, env).1.status == Committed
    ensures var (after, r) := Outcome(db, domain, d, env);
            r.blueprint == Some(d.bp)
            && domain !in after.Members(BlueprintCommit.NeedMappingKey)
            && after.Get(BlueprintCommit.ActiveKey(domain)) == Some("1")
            && !after.Exists(BlueprintCommit.PendingKey(domain))
            && BlueprintCommit.CommitFields <= after.HGetAll(BlueprintCommit.BlueprintKey(domain)).Keys
  {
    var bp := d.bp;
    var c := BlueprintCommit.Commit(db, domain, bp, env.now, env.dumps, env.fileWriteOk);
    assert env.fileWriteOk;
    BlueprintCommit.CommitClearsNeedsMapping(db, domain, bp, env.now, env.dumps);
    BlueprintCommit.CommitWritesSixFields(db, domain, bp, env.now, env.dumps, true);
    RateKeyDiffers(domain, domain);
    Redis.SetKeepsOthers(c.1, RateKey(domain), "1", BlueprintCommit.ActiveKey(domain));
    Redis.SetKeepsOthers(c.1, RateKey(domain), "1", BlueprintCommit.NeedMappingKey);
    Redis.SetKeepsOthers(c.1, RateKey(domain), "1", BlueprintCommit.BlueprintKey(domain));
    Redis.SetKeepsOthers(c.1, RateKey(domain), "1", BlueprintCommit.PendingKey(domain));
  }

  /** A commit attempt that fails can only have failed at the blueprint file write. */
  lemma CommitErrorIsFileWrite(db: Redis.Db, domain: string, url: string, extraction: map<string, string>, env: Oracles)
    requires extraction != map[]
    requires Outcome(db, domain, CommitDraft(DraftBlueprint(domain, url, extraction)), env).1.status == CommitError
    ensures !env.fileWriteOk
  {
    DraftBlueprintFields(domain, url, extraction);
  }

  /** A pending attempt stores the serialised draft and leaves the blueprint hash untouched. */
  lemma PendingStoresDraft(db: Redis.Db, domain: string, bp: map<string, Json>, env: Oracles)
    ensures var after := Outcome(db, domain, KeepPending(bp), env).0;
            after.Get(BlueprintCommit.PendingKey(domain)) == Some(env.dumps(JObj(bp)))
            && after.HGetAll(BlueprintCommit.BlueprintKey(domain)) == db.HGetAll(BlueprintCommit.BlueprintKey(domain))
  {
    var pk := BlueprintCommit.PendingKey(domain);
    var bk := BlueprintCommit.BlueprintKey(domain);
    RateKeyDiffers(domain, domain);
    BlueprintCommit.KeysDiffer(domain, domain);
    var mid := db.Set(pk, env.dumps(JObj(bp)));
    Redis.SetKeepsOthers(db, pk, env.dumps(JObj(bp)), bk);
    Redis.SetKeepsOthers(mid, RateKey(domain), "1", pk);
    Redis.SetKeepsOthers(mid, RateKey(domain), "1", bk);
  }

  // ---------------------------------------------------------------------
  // The attempt, step by step, on a store
  // ---------------------------------------------------------------------

  /** The checks and thresholds after the fetch, as the source runs them. */
  method DecideOnPage(html: string, domain: string, url: string, env: Oracles) returns (d: Decision)
    ensures d == Decide(html, domain, url, env)
  {
    if html == [] || |html| < MinHtml {
      return Stop(EmptyHtml);
    }
    if BlockPage(html) {
      return Stop(Captcha);
    }
    var extraction, confidence := SelectorDiscovery.Discover(html, env.parserAvailable, env.parse(html));
    if extraction == map[] {
      return Stop(NoSelectors);
    }
    var overall := SelectorDiscovery.ComputeOverallConfidence(confidence, extraction);
    var bp := DraftBlueprint(domain, url, extraction);
    var extracted := map[];
    if env.parserAvailable {
      extracted := ScrapeEnrich.ExtractFromHtml(html, extraction, env.parse(html));
    }
    d := Judge(overall, bp, extracted, env);
  }

  /** `attempt_auto_map(domain, target_url)` against the shared store. */
  method AttemptOnStore(r: Redis.Store, domain: string, targetUrl: Option<string>, env: Oracles)
    returns (res: AutoMapResult)
    modifies r
    ensures res == AttemptAutoMap(old(r.Snapshot()), domain, targetUrl, env).1
    ensures r.Snapshot() == AttemptAutoMap(old(r.Snapshot()), domain, targetUrl, env).0
  {
    var rk := RateKey(domain);
    var marker := r.Get(rk);
    if marker.Some? && marker.value != [] {
      return Plain(RateLimited);
    }
    var url := PageUrl(domain, targetUrl);
    var page := env.fetch(url, false);
    if page.FetchError? {
      page := env.fetch(url, true);
      if page.FetchError? {
        r.Set(rk, "1");
        return AutoMapResult(FetchFailed, false, false, None, Some(page.message));
      }
    }
    var html := Truncate(page.html);
    var d := DecideOnPage(html, domain, url, env);
    res := CarryOut(r, domain, d, env);
  }

  /** The store writes of each branch after the decision, each ending with the rate key. */
  method CarryOut(r: Redis.Store, domain: string, d: Decision, env: Oracles) returns (res: AutoMapResult)
    modifies r
    ensures res == Outcome(old(r.Snapshot()), domain, d, env).1
    ensures r.Snapshot() == Outcome(old(r.Snapshot()), domain, d, env).0
  {
    var rk := RateKey(domain);
    match d
    case Stop(s) =>
      r.Set(rk, "1");
      res := Plain(s);
    case CommitDraft(bp) =>
      var st := BlueprintCommit.CommitBlueprint(r, domain, bp, env.now, env.dumps, env.fileWriteOk);
      r.Set(rk, "1");
      res := if st == BlueprintCommit.Committed then AutoMapResult(Committed, true, false, Some(bp), None)
             else Plain(CommitError);
    case KeepPending(bp) =>
      r.Set(BlueprintCommit.PendingKey(domain), env.dumps(JObj(bp)));
      r.Set(rk, "1");
      res := AutoMapResult(Pending, false, true, Some(bp), None);
  }
}
