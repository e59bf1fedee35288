/**
 * The extraction half of the blueprint extractor and the site loop of
 * `scrape_enrich` (scrapegoat/app/enrichment/scraper_enrichment.py):
 * reading CSS selectors of the form `sel::text` / `sel::attr(name)`, the
 * CAPTCHA check on fetched HTML, the JSON and HTML extraction loops, the
 * per-site result filter, and the choice of the first site that yields a
 * phone number.
 */
module ScrapeEnrich {
  import opened Wrappers
  import opened Text
  import opened Json
  import opened ScraperEnrichment

  // ---------------------------------------------------------------------
  // CSS selectors with a pseudo-element suffix
  // ---------------------------------------------------------------------

  /** What a blueprint selector asks for. */
  datatype CssQuery = AttrQuery(css: string, attr: string) | TextQuery(css: string)

  /** An element the HTML parser found: its attributes and its stripped text. */
  datatype Element = Element(attrs: map<string, string>, text: string)

  /**
   * A character the attribute-name group accepts: `\w` as written, and
   * `[\w-]` when `hyphen` is set.
   */
  predicate AttrNameChar(c: char, hyphen: bool) { IsWordChar(c) || (hyphen && c == '-') }

  /** Where a regex `$` may match: the end, or just before one final newline. */
  function BeforeEnd(s: string): (r: string)
    ensures r == s || r + "\n" == s
  {
    if s != [] && s[|s| - 1] == '\n' then s[..|s| - 1] else s
  }

  /** Length of the longest suffix made of attribute-name characters. */
  function TrailingRun(s: string, hyphen: bool): (n: nat)
    ensures n <= |s|
    ensures forall i :: |s| - n <= i < |s| ==> AttrNameChar(s[i], hyphen)
    ensures n < |s| ==> !AttrNameChar(s[|s| - n - 1], hyphen)
  {
    if s == [] || !AttrNameChar(s[|s| - 1], hyphen) then 0
    else 1 + TrailingRun(s[..|s| - 1], hyphen)
  }

  /** `^(.+?)::attr\((NAME+)\)$`: the selector and the attribute name, when it matches. */
  function MatchAttr(selector: string, hyphen: bool): (r: Option<(string, string)>)
    ensures r.Some? ==> r.value.0 != [] && '\n' !in r.value.0 && r.value.1 != []
    ensures r.Some? ==> forall i :: 0 <= i < |r.value.1| ==> AttrNameChar(r.value.1[i], hyphen)
  {
    var b := BeforeEnd(selector);
    if b == [] || b[|b| - 1] != ')' then None
    else
      var inner := b[..|b| - 1];
      var n := TrailingRun(inner, hyphen);
      var pre := inner[..|inner| - n];
      if n == 0 || !EndsWith(pre, "::attr(") then None
      else
        var g := pre[..|pre| - 7];
        if g == [] || '\n' in g then None else Some((g, inner[|inner| - n..]))
  }

  /** `^(.+?)::text$`: the selector in front of `::text`, when it matches. */
  function MatchText(selector: string): (r: Option<string>)
    ensures r.Some? ==> r.value != [] && '\n' !in r.value
  {
    var b := BeforeEnd(selector);
    if EndsWith(b, "::text") && |b| > 6 && '\n' !in b[..|b| - 6] then Some(b[..|b| - 6]) else None
  }

  /** The pseudo-element parse of `_extract_by_css`: `::attr(...)` first, then `::text`, else the whole selector. */
  function ParseCssWith(selector: string, hyphen: bool): (q: CssQuery)
    ensures q.AttrQuery? <==> MatchAttr(selector, hyphen).Some?
    ensures MatchAttr(selector, hyphen).None? && MatchText(selector).None? ==> q == TextQuery(selector)
  {
    match MatchAttr(selector, hyphen)
    case Some((g, a)) => AttrQuery(g, a)
    case None =>
      match MatchText(selector)
      case Some(g) => TextQuery(g)
      case None => TextQuery(selector)
  }

  /** The parse as written: attribute names are `\w+`, so `data-phone` does not match. */
  function ParseCssAsWritten(selector: string): CssQuery {
    ParseCssWith(selector, false)
  }

  /** The parse with hyphenated attribute names (`data-*`) accepted. */
  function ParseCss(selector: string): CssQuery {
    ParseCssWith(selector, true)
  }

  lemma {:induction false} TrailingRunOf(pre: string, w: string, hyphen: bool)
    requires pre != [] && !AttrNameChar(pre[|pre| - 1], hyphen)
    requires forall i :: 0 <= i < |w| ==> AttrNameChar(w[i], hyphen)
    ensures TrailingRun(pre + w, hyphen) == |w|
    decreases |w|
  {
    if w == [] {
      assert pre + w == pre;
    } else {
      var w' := w[..|w| - 1];
      assert (pre + w)[..|pre + w| - 1] == pre + w';
      TrailingRunOf(pre, w', hyphen);
    }
  }

  /** A selector written as `css::attr(name)` reads back as that attribute query. */
  lemma ParseCssAttrRoundTrip(css: string, attr: string)
    requires css != [] && '\n' !in css && attr != []
    requires forall i :: 0 <= i < |attr| ==> AttrNameChar(attr[i], true)
    ensures ParseCss(css + "::attr(" + attr + ")") == AttrQuery(css, attr)
  {
    MatchAttrOf(css, attr);
  }

  lemma MatchAttrOf(css: string, attr: string)
    requires css != [] && '\n' !in css && attr != []
    requires forall i :: 0 <= i < |attr| ==> AttrNameChar(attr[i], true)
    ensures MatchAttr(css + "::attr(" + attr + ")", true) == Some((css, attr))
  {
    var s := css + "::attr(" + attr + ")";
    var pre := css + "::attr(";
    var inner := pre + attr;
    assert BeforeEnd(s) == s;
    assert s[..|s| - 1] == inner;
    TrailingRunOf(pre, attr, true);
    assert inner[..|inner| - |attr|] == pre;
    assert inner[|inner| - |attr|..] == attr;
    assert pre[|pre| - 7..] == "::attr(";
    assert pre[..|pre| - 7] == css;
  }

  /** A selector written as `css::text` reads back as that text query. */
  lemma ParseCssTextRoundTrip(css: string, hyphen: bool)
    requires css != [] && '\n' !in css
    ensures ParseCssWith(css + "::text", hyphen) == TextQuery(css)
  {
    var s := css + "::text";
    assert BeforeEnd(s) == s;
    assert s[..|s| - 6] == css;
  }

  /**
   * As written, an attribute name with a hyphen is not recognised: the
   * whole selector, suffix included, is handed to the CSS engine as it is.
   */
  lemma HyphenatedAttrNotRecognised(css: string, attr: string)
    requires css != [] && '\n' !in css && '-' in attr
    requires forall i :: 0 <= i < |attr| ==> AttrNameChar(attr[i], true)
    ensures ParseCssAsWritten(css + "::attr(" + attr + ")") == TextQuery(css + "::attr(" + attr + ")")
  {
    var s := css + "::attr(" + attr + ")";
    var inner := css + "::attr(" + attr;
    HyphenStopsRun(css + "::attr(", attr);
    assert BeforeEnd(s) == s && s[..|s| - 1] == inner;
    NoOpenBeforeRun(inner, false);
    assert !EndsWith(BeforeEnd(s), "::text") by {
      assert s[|s| - 1] == ')';
    }
  }

  /** When the name run is not preceded by "(", the attribute pattern does not match. */
  lemma NoOpenBeforeRun(inner: string, hyphen: bool)
    requires var n := TrailingRun(inner, hyphen);
             n < |inner| && inner[..|inner| - n][|inner| - n - 1] != '('
    ensures MatchAttr(inner + ")", hyphen).None?
  {
    var s := inner + ")";
    assert BeforeEnd(s) == s && s[..|s| - 1] == inner;
    var pre := inner[..|inner| - TrailingRun(inner, hyphen)];
    if |pre| >= 7 {
      assert pre[|pre| - 7..][6] == pre[|pre| - 1];
    }
  }

  /**
   * Without hyphens, the run of name characters at the end of an attribute
   * name holding one stops short of the name, so what precedes it is not
   * the opening "(".
   */
  lemma HyphenStopsRun(pre: string, attr: string)
    requires '-' in attr
    requires forall i :: 0 <= i < |attr| ==> AttrNameChar(attr[i], true)
    ensures var inner := pre + attr;
            var n := TrailingRun(inner, false);
            n < |attr| && inner[..|inner| - n][|inner| - n - 1] != '('
  {
    var inner := pre + attr;
    var n := TrailingRun(inner, false);
    var k :| 0 <= k < |attr| && attr[k] == '-';
    assert inner[|inner| - |attr| + k] == '-';
    assert n < |attr|;
    assert inner[|inner| - n - 1] == attr[|attr| - n - 1];
    assert attr[|attr| - n - 1] == '-' by {
      assert !AttrNameChar(attr[|attr| - n - 1], false);
      assert attr[|attr| - n - 1] in attr;
    }
  }

  /** `_extract_by_css` with the given parse: the attribute's value, or the element's stripped text. */
  function ExtractByCssWith(selectOne: string -> Option<Element>, selector: string, hyphen: bool): (r: Option<string>)
    ensures r.Some? ==> selectOne(ParseCssWith(selector, hyphen).css).Some?
  {
    match ParseCssWith(selector, hyphen)
    case AttrQuery(css, attr) =>
      (match selectOne(css)
       case None => None
       case Some(e) => if attr in e.attrs then Some(e.attrs[attr]) else None)
    case TextQuery(css) =>
      (match selectOne(css)
       case None => None
       case Some(e) => Some(e.text))
  }

  function ExtractByCss(selectOne: string -> Option<Element>, selector: string): Option<string> {
    ExtractByCssWith(selectOne, selector, true)
  }

  /** An attribute selector reads the attribute of the element its CSS part selects. */
  lemma ExtractAttr(selectOne: string -> Option<Element>, css: string, attr: string, e: Element)
    requires css != [] && '\n' !in css && attr != []
    requires forall i :: 0 <= i < |attr| ==> AttrNameChar(attr[i], true)
    requires selectOne(css) == Some(e) && attr in e.attrs
    ensures ExtractByCss(selectOne, css + "::attr(" + attr + ")") == Some(e.attrs[attr])
  {
    ParseCssAttrRoundTrip(css, attr);
  }

  // ---------------------------------------------------------------------
  // CAPTCHA check and the two extraction loops
  // ---------------------------------------------------------------------

  const CaptchaIndicators: seq<string> := [
    "captcha", "challenge", "cf-browser-verification",
    "hcaptcha", "recaptcha", "please verify", "robot",
    "access denied", "blocked", "unusual traffic"
  ]

  /** Page size from which a page with an indicator word is still parsed. */
  const CaptchaPageLimit: nat := 50000

  /** A fetched page counts as a block page: an indicator occurs (ignoring case) and the page is short. */
  predicate LooksBlocked(html: string) {
    (exists i :: 0 <= i < |CaptchaIndicators| && Contains(Lower(html), CaptchaIndicators[i]))
    && |html| < CaptchaPageLimit
  }

  /** The marker returned instead of extracted fields. */
  const CaptchaMarker: map<string, Json> := map["_captcha_detected" := JBool(true)]

  /** Python truthiness of an optional string. */
  predicate NonEmpty(v: Option<string>) { v.Some? && v.value != [] }

  /** The entries an extraction loop keeps: each field whose selector `pick` turns into a value. */
  function Picked(extraction: map<string, string>, pick: string -> Option<string>): (m: map<string, Json>)
    ensures m.Keys <= extraction.Keys
    ensures forall f | f in m :: pick(extraction[f]).Some? && m[f] == JStr(pick(extraction[f]).value)
  {
    map f | f in extraction && pick(extraction[f]).Some? :: JStr(pick(extraction[f]).value)
  }

  /**
   * The loop both extractors run: visit every field of the blueprint's
   * extraction map and record the value its selector yields, if any.
   */
  method CollectFields(extraction: map<string, string>, pick: string -> Option<string>) returns (extracted: map<string, Json>)
    ensures extracted == Picked(extraction, pick)
  {
    extracted := map[];
    var todo := extraction.Keys;
    while todo != {}
      invariant todo <= extraction.Keys
      invariant extracted == map f | f in extraction.Keys - todo && pick(extraction[f]).Some? :: JStr(pick(extraction[f]).value)
      decreases todo
    {
      var field :| field in todo;
      var value := pick(extraction[field]);
      if value.Some? {
        extracted := extracted[field := JStr(value.value)];
      }
      todo := todo - {field};
    }
    assert extraction.Keys - todo == extraction.Keys;
  }

  /** What the HTML loop makes of one selector: CSS selectors (not `$.` paths) that yield non-empty text. */
  function CssPick(selectOne: string -> Option<Element>, selector: string): (r: Option<string>)
    ensures r.Some? ==> !StartsWith(selector, "$.") && r.value != []
  {
    if StartsWith(selector, "$.") then None
    else if NonEmpty(ExtractByCss(selectOne, selector)) then ExtractByCss(selectOne, selector)
    else None
  }

  /** The fields the HTML loop keeps. */
  function HtmlFields(extraction: map<string, string>, selectOne: string -> Option<Element>): (m: map<string, Json>)
    ensures m.Keys <= extraction.Keys
    ensures forall f | f in m :: !StartsWith(extraction[f], "$.") && m[f].JStr? && m[f].s != []
  {
    Picked(extraction, s => CssPick(selectOne, s))
  }

  /** The result of `_extract_from_html`. */
  function HtmlResult(html: string, extraction: map<string, string>, selectOne: string -> Option<Element>): map<string, Json> {
    if html == [] then map[]
    else if LooksBlocked(html) then CaptchaMarker
    else HtmlFields(extraction, selectOne)
  }

  /** `_extract_from_html`: a block page gives only the CAPTCHA marker, otherwise one entry per selector that yields text. */
  method ExtractFromHtml(html: string, extraction: map<string, string>, selectOne: string -> Option<Element>)
    returns (extracted: map<string, Json>)
    ensures extracted == HtmlResult(html, extraction, selectOne)
  {
    if html == [] {
      return map[];
    }
    if LooksBlocked(html) {
      return CaptchaMarker;
    }
    extracted := CollectFields(extraction, s => CssPick(selectOne, s));
  }

  /** A page of at least 50000 characters is never treated as a block page, whatever it says. */
  lemma LargePageIsParsed(html: string, extraction: map<string, string>, selectOne: string -> Option<Element>)
    requires |html| >= CaptchaPageLimit
    ensures HtmlResult(html, extraction, selectOne) == HtmlFields(extraction, selectOne)
  {
  }

  /** Lower-case letters, spaces and hyphens: what every indicator is made of. */
  predicate LowerWord(w: string) {
    forall k :: 0 <= k < |w| ==> IsLower(w[k]) || w[k] == ' ' || w[k] == '-'
  }

  lemma LowerUpperWord(w: string)
    requires LowerWord(w)
    ensures Lower(Upper(w)) == w
  {
  }

  /** A short page mentioning the word "captcha", in any letter case, yields only the marker. */
  lemma ShortPageWithIndicator(pre: string, post: string, extraction: map<string, string>,
                               selectOne: string -> Option<Element>)
    requires |pre| + 7 + |post| < CaptchaPageLimit
    ensures HtmlResult(pre + Upper("captcha") + post, extraction, selectOne) == CaptchaMarker
  {
    var w := CaptchaIndicators[0];
    assert w == "captcha";
    var html := pre + Upper(w) + post;
    LowerUpperWord(w);
    assert Lower(html)[|pre|..|pre| + |w|] == Lower(Upper(w));
    ContainsAt(Lower(html), w, |pre|);
    assert html != [];
  }

  /** What the JSON loop makes of one path: `$.` paths that resolve to a non-empty rendering. */
  function JsonPick(data: Json, path: string): (r: Option<string>)
    ensures r.Some? ==> StartsWith(path, "$.") && r.value != []
  {
    if !StartsWith(path, "$.") then None
    else if NonEmpty(JsonPathValue(data, path)) then JsonPathValue(data, path)
    else None
  }

  /** The fields the JSON loop keeps. */
  function JsonFields(data: Json, extraction: map<string, string>): (m: map<string, Json>)
    ensures m.Keys <= extraction.Keys
    ensures forall f | f in m :: StartsWith(extraction[f], "$.") && m[f].JStr? && m[f].s != []
  {
    Picked(extraction, s => JsonPick(data, s))
  }

  /** `_extract_from_json`: one entry per `$.` path whose value is present and renders non-empty. */
  method ExtractFromJson(data: Json, extraction: map<string, string>) returns (extracted: map<string, Json>)
    ensures extracted == JsonFields(data, extraction)
  {
    extracted := CollectFields(extraction, s => JsonPick(data, s));
  }

  /** A blueprint path written for a nested value extracts that value's rendering. */
  lemma JsonExtractsNested(field: string, steps: seq<PathStep>, v: Json)
    requires |steps| >= 1 && forall k :: 0 <= k < |steps| ==> WritableStep(steps[k])
    requires v != JNull && PyStr(v) != []
    ensures StartsWith(PathText(steps), "$.")
    ensures JsonFields(Nest(steps, v), map[field := PathText(steps)]) == map[field := JStr(PyStr(v))]
  {
    JsonPathRoundTrip(steps, v);
  }

  // ---------------------------------------------------------------------
  // One site's result
  // ---------------------------------------------------------------------

  /** Python `int(age)` on a JSON value: None where it raises. */
  function IntOf(age: Json): (r: Option<int>)
    ensures age.JInt? ==> r == Some(age.i)
    ensures age.JStr? ==> r == ParseInt(age.s)
    ensures age.JNull? || age.JList? || age.JObj? ==> r.None?
  {
    match age
    case JInt(i) => Some(i)
    case JBool(b) => Some(if b then 1 else 0)
    case JFloat(x) => Some(if x >= 0.0 then x.Floor else -((-x).Floor))
    case JStr(s) => ParseInt(s)
    case _ => None
  }

  const PhoneKeys: seq<string> := ["phone", "phoneNumber", "phone_number"]
  const IncomeKeys: seq<string> := ["income", "householdIncome", "household_income"]
  const EmailKeys: seq<string> := ["email", "emailAddress", "email_address"]

  /** The phone `try_site` keeps: the first truthy phone key, normalised, when that is non-empty. */
  function SitePhone(result: map<string, Json>): (r: Option<string>)
    ensures r.Some? ==> r.value != [] && (r.value[0] == '+')
  {
    var phone := FirstOf(result, PhoneKeys);
    if phone.Truthy() && NormalizePhone(PyStr(phone)) != [] then Some(NormalizePhone(PyStr(phone))) else None
  }

  /** The age `try_site` keeps: `int(age)` when it does not raise and lies in 18..120. */
  function SiteAge(result: map<string, Json>): (r: Option<int>)
    ensures r.Some? ==> 18 <= r.value <= 120
  {
    var age := Get(result, "age");
    if age.Truthy() && IntOf(age).Some? && 18 <= IntOf(age).value <= 120 then IntOf(age) else None
  }

  /** The income `try_site` keeps: the first truthy income key, normalised, when that is non-empty. */
  function SiteIncome(result: map<string, Json>): (r: Option<string>)
    ensures r.Some? ==> r.value != []
  {
    var income := FirstOf(result, IncomeKeys);
    if income.Truthy() && NormalizeIncome(PyStr(income)) != [] then Some(NormalizeIncome(PyStr(income))) else None
  }

  /** The email `try_site` keeps: the first truthy email key containing '@', stripped. */
  function SiteEmail(result: map<string, Json>): (r: Option<string>)
    ensures r.Some? ==> '@' in r.value
  {
    var email := FirstOf(result, EmailKeys);
    if email.Truthy() && '@' in PyStr(email) then
      StripKeepsNonSpace(PyStr(email), '@');
      Some(Strip(PyStr(email)))
    else None
  }

  /** `normalized[key] = value` when there is a value. */
  function Put(m: map<string, Json>, key: string, value: Option<Json>): (r: map<string, Json>)
    ensures value.None? ==> r == m
    ensures value.Some? ==> r == m[key := value.value]
  {
    if value.Some? then m[key := value.value] else m
  }

  function StrOf(v: Option<string>): Option<Json> { if v.Some? then Some(JStr(v.value)) else None }

  /** What a site's normalised result may hold. */
  predicate SiteFieldsOk(m: map<string, Json>) {
    && m != map[]
    && m.Keys <= {"phone", "age", "income", "email"}
    && ("phone" in m ==> m["phone"].JStr? && m["phone"].s != [] && m["phone"].s[0] == '+')
    && ("age" in m ==> m["age"].JInt? && 18 <= m["age"].i <= 120)
    && ("income" in m ==> m["income"].JStr? && m["income"].s != [])
    && ("email" in m ==> m["email"].JStr? && '@' in m["email"].s)
  }

  /**
   * The `normalized` dictionary of `try_site` from the four kept values:
   * None when all four are missing.
   */
  function AssembleSiteResult(phone: Option<string>, age: Option<int>, income: Option<string>, email: Option<string>)
    : (r: Option<map<string, Json>>)
    requires phone.Some? ==> phone.value != [] && phone.value[0] == '+'
    requires age.Some? ==> 18 <= age.value <= 120
    requires income.Some? ==> income.value != []
    requires email.Some? ==> '@' in email.value
    ensures r.None? <==> phone.None? && age.None? && income.None? && email.None?
    ensures r.Some? ==> SiteFieldsOk(r.value)
    ensures r.Some? ==> ("phone" in r.value <==> phone.Some?) && (phone.Some? ==> r.value["phone"] == JStr(phone.value))
    ensures r.Some? ==> ("age" in r.value <==> age.Some?) && (age.Some? ==> r.value["age"] == JInt(age.value))
    ensures r.Some? ==> ("income" in r.value <==> income.Some?) && (income.Some? ==> r.value["income"] == JStr(income.value))
    ensures r.Some? ==> ("email" in r.value <==> email.Some?) && (email.Some? ==> r.value["email"] == JStr(email.value))
  {
    var ageValue := if age.Some? then Some(JInt(age.value)) else None;
    var m1 := Put(map[], "phone", StrOf(phone));
    var m2 := Put(m1, "age", ageValue);
    var m3 := Put(m2, "income", StrOf(income));
    var m := Put(m3, "email", StrOf(email));
    assert phone.Some? ==> "phone" in m1 && "phone" in m;
    assert age.Some? ==> "age" in m2 && "age" in m;
    assert income.Some? ==> "income" in m;
    assert email.Some? ==> "email" in m;
    if m == map[] then None else Some(m)
  }

  /** Lines 452-490 of `try_site`: the normalised phone, age, income and email of one extractor result. */
  function NormalizeSiteResult(result: map<string, Json>): Option<map<string, Json>> {
    AssembleSiteResult(SitePhone(result), SiteAge(result), SiteIncome(result), SiteEmail(result))
  }

  /** A plausible phone under the first phone key comes out as "+1" and its last ten digits. */
  lemma SitePhoneNormalized(result: map<string, Json>, phone: string)
    requires "phone" in result && result["phone"] == JStr(phone)
    requires Validators.IsPlausiblePhone(Some(phone))
    ensures SitePhone(result) == Some("+1" + Digits(phone)[|Digits(phone)| - 10..])
  {
    PlausiblePhoneNormalizes(phone);
    var vals := seq(|PhoneKeys|, i requires 0 <= i < |PhoneKeys| => Get(result, PhoneKeys[i]));
    assert vals[0] == JStr(phone);
    OrChainFirst(vals, 0);
  }

  /** A numeric age string is kept exactly when it lies in 18..120. */
  lemma SiteAgeRange(n: nat)
    ensures SiteAge(map["age" := JStr(ShowNat(n))]) == (if 18 <= n <= 120 then Some(n) else None)
  {
    NatOfShowNat(n);
    assert IntOf(JStr(ShowNat(n))) == Some(n);
  }

  // ---------------------------------------------------------------------
  // Trying one site, and choosing among sites
  // ---------------------------------------------------------------------

  /** What one extractor run did: raised with a message, or returned a value. */
  datatype RunOutcome = Raised(message: string) | Returned(result: Json)

  /** Error-message fragments that make `try_site` retry in browser mode. */
  const ProtectionMarkers: seq<string> := ["403", "503", "cloudflare", "captcha", "blocked", "access denied"]

  predicate ShowsProtection(message: string) {
    exists i :: 0 <= i < |ProtectionMarkers| && Contains(Lower(message), ProtectionMarkers[i])
  }

  /**
   * `try_site(site, use_browser)`, given the extractor run in each mode:
   * a CAPTCHA marker or a protection error retries once in browser mode
   * when that mode is available; anything else is filtered by
   * `NormalizeSiteResult`.
   */
  function TrySite(run: bool -> RunOutcome, browserAvailable: bool, useBrowser: bool): (r: Option<map<string, Json>>)
    ensures r.Some? ==> SiteFieldsOk(r.value)
    decreases if useBrowser then 0 else 1
  {
    match run(useBrowser)
    case Raised(message) =>
      if !useBrowser && browserAvailable && ShowsProtection(message) then TrySite(run, browserAvailable, true) else None
    case Returned(result) =>
      if !result.JObj? then None
      else if Get(result.fields, "_captcha_detected").Truthy() then
        (if !useBrowser && browserAvailable then TrySite(run, browserAvailable, true) else None)
      else NormalizeSiteResult(result.fields)
  }

  /** Without browser mode a CAPTCHA page ends the attempt for that site. */
  lemma CaptchaWithoutBrowserFails(run: bool -> RunOutcome)
    requires run(false) == Returned(JObj(CaptchaMarker))
    ensures TrySite(run, false, false) == None
  {
    assert Get(CaptchaMarker, "_captcha_detected").Truthy();
  }

  /** With browser mode, a CAPTCHA page is retried there and the browser run decides. */
  lemma CaptchaRetriedInBrowser(run: bool -> RunOutcome)
    requires run(false) == Returned(JObj(CaptchaMarker))
    ensures TrySite(run, true, false) == TrySite(run, true, true)
  {
    assert Get(CaptchaMarker, "_captcha_detected").Truthy();
  }

  /** `URL_TEMPLATES`: the direct-detail URL template of each site that has one. */
  const UrlTemplates: map<string, string> := map[
    "fastpeoplesearch.com" := "https://www.fastpeoplesearch.com/name/{name_slug}_{city_slug}-{state_lower}",
    "thatsthem.com" := "https://thatsthem.com/name/{name_title}/{city_title}-{state_lower}"]

  const SitePriority: seq<string> := ["fastpeoplesearch.com", "thatsthem.com", "truepeoplesearch.com", "whitepages.com"]

  /** The sites that have a blueprint, in priority order. */
  function AvailableSites(sites: seq<string>, hasBlueprint: string -> bool): (r: seq<string>)
    ensures forall s :: s in r <==> s in sites && hasBlueprint(s)
    ensures |r| <= |sites|
  {
    if sites == [] then []
    else (if hasBlueprint(sites[0]) then [sites[0]] else []) + AvailableSites(sites[1..], hasBlueprint)
  }

  /** The head of the available sites is the first site with a blueprint: every earlier one has none. */
  lemma {:induction false} AvailableHeadIsFirst(sites: seq<string>, hasBlueprint: string -> bool)
    ensures var r := AvailableSites(sites, hasBlueprint);
            r != [] ==> exists i :: 0 <= i < |sites| && sites[i] == r[0] &&
                                    forall j :: 0 <= j < i ==> !hasBlueprint(sites[j])
  {
    var r := AvailableSites(sites, hasBlueprint);
    if sites != [] && !hasBlueprint(sites[0]) && r != [] {
      var tail := sites[1..];
      assert r == AvailableSites(tail, hasBlueprint);
      AvailableHeadIsFirst(tail, hasBlueprint);
      var i :| 0 <= i < |tail| && tail[i] == r[0] && forall j :: 0 <= j < i ==> !hasBlueprint(tail[j]);
      assert sites[i + 1] == r[0];
      assert forall j :: 0 <= j < i + 1 ==> !hasBlueprint(sites[j]) by {
        forall j | 0 <= j < i + 1 ensures !hasBlueprint(sites[j]) {
          if j > 0 {
            assert sites[j] == tail[j - 1];
          }
        }
      }
    } else if sites != [] && r != [] {
      assert sites[0] == r[0];
    }
  }

  /** `find_available_site`: the first site in priority order with a blueprint. */
  function FindAvailableSite(hasBlueprint: string -> bool): (r: Option<string>)
    ensures r.Some? ==> hasBlueprint(r.value)
    ensures r.Some? ==> exists i :: 0 <= i < |SitePriority| && SitePriority[i] == r.value &&
                                    forall j :: 0 <= j < i ==> !hasBlueprint(SitePriority[j])
    ensures r.None? ==> forall s :: s in SitePriority ==> !hasBlueprint(s)
  {
    var available := AvailableSites(SitePriority, hasBlueprint);
    AvailableHeadIsFirst(SitePriority, hasBlueprint);
    if available == [] then None else Some(available[0])
  }

  predicate HasPhone(r: Option<map<string, Json>>) {
    r.Some? && Get(r.value, "phone").Truthy()
  }

  /** The first site (in order) whose attempt yields a phone; empty when none does. */
  function FirstWithPhone(sites: seq<string>, attempt: string -> Option<map<string, Json>>): (r: map<string, Json>)
    ensures r != map[] ==> Get(r, "phone").Truthy()
    ensures r == map[] <==> forall i :: 0 <= i < |sites| ==> !HasPhone(attempt(sites[i]))
  {
    if sites == [] then map[]
    else if HasPhone(attempt(sites[0])) then attempt(sites[0]).value
    else
      var rest := FirstWithPhone(sites[1..], attempt);
      assert forall i :: 1 <= i < |sites| ==> sites[i] == sites[1..][i - 1];
      rest
  }

  /** An earlier site with a phone always wins over a later one. */
  lemma {:induction false} PriorityWins(sites: seq<string>, attempt: string -> Option<map<string, Json>>, i: nat)
    requires i < |sites| && HasPhone(attempt(sites[i]))
    requires forall j :: 0 <= j < i ==> !HasPhone(attempt(sites[j]))
    ensures FirstWithPhone(sites, attempt) == attempt(sites[i]).value
  {
    if i > 0 {
      PriorityWins(sites[1..], attempt, i - 1);
    }
  }

  /**
   * `scrape_enrich`: the first three available sites are tried together
   * and the first of them (in priority order) with a phone wins; then the
   * rest are tried one by one. The result is `{}` when no site has a
   * blueprint or none yields a phone.
   */
  method ScrapeEnrichSites(sites: seq<string>, hasBlueprint: string -> bool, attempt: string -> Option<map<string, Json>>)
    returns (r: map<string, Json>)
    ensures r == FirstWithPhone(AvailableSites(sites, hasBlueprint), attempt)
  {
    var available := AvailableSites(sites, hasBlueprint);
    if available == [] {
      return map[];
    }
    var batch := if |available| < 3 then |available| else 3;
    var results: seq<Option<map<string, Json>>> := [];
    for k := 0 to batch
      invariant |results| == k
      invariant forall j :: 0 <= j < k ==> results[j] == attempt(available[j])
    {
      results := results + [attempt(available[k])];
    }
    for k := 0 to batch
      invariant forall j :: 0 <= j < k ==> !HasPhone(attempt(available[j]))
    {
      if HasPhone(results[k]) {
        PriorityWins(available, attempt, k);
        return results[k].value;
      }
    }
    for k := batch to |available|
      invariant forall j :: 0 <= j < k ==> !HasPhone(attempt(available[j]))
    {
      var result := attempt(available[k]);
      if HasPhone(result) {
        PriorityWins(available, attempt, k);
        return result.value;
      }
    }
    r := map[];
  }

  /** Every phone `scrape_enrich` returns has passed the site filter: a non-empty normalised string. */
  lemma {:induction false} ScrapePhoneIsNormalized(sites: seq<string>, run: string -> bool -> RunOutcome, browserAvailable: bool)
    ensures var r := FirstWithPhone(sites, s => TrySite(run(s), browserAvailable, false));
            r == map[] || (SiteFieldsOk(r) && "phone" in r)
  {
    if sites != [] {
      ScrapePhoneIsNormalized(sites[1..], run, browserAvailable);
    }
  }

  // ---------------------------------------------------------------------
  // Search parameters
  // ---------------------------------------------------------------------

  function Lookup(identity: map<string, string>, k: string): string {
    if k in identity then identity[k] else ""
  }

  const SearchKeys: seq<string> := ["name", "city", "state", "state_lower", "zipcode",
                                    "name_slug", "city_slug", "name_title", "city_title"]

  /** The value `scrape_enrich` puts under each search key for a resolved identity. */
  function SearchValues(identity: map<string, string>): (vs: seq<string>)
    ensures |vs| == |SearchKeys|
  {
    var fullName := Strip(Lookup(identity, "firstName") + " " + Lookup(identity, "lastName"));
    var city := Lookup(identity, "city");
    var state := Lookup(identity, "state");
    [fullName, city, Upper(state), Lower(state), Lookup(identity, "zipcode"),
     Slugify(fullName, true), Slugify(city, true), TitleizeSlug(fullName), TitleizeSlug(city)]
  }

  /** The parameter dictionary `scrape_enrich` builds from a resolved identity, in its order. */
  function SearchParams(identity: map<string, string>): (p: Params)
    ensures |p| == |SearchKeys| && forall i :: 0 <= i < |p| ==> p[i].0 == SearchKeys[i]
  {
    var vs := SearchValues(identity);
    seq(|SearchKeys|, i requires 0 <= i < |SearchKeys| => (SearchKeys[i], JStr(vs[i])))
  }

  lemma SearchKeysUsable()
    ensures forall i, j :: 0 <= i < j < |SearchKeys| ==> SearchKeys[i] != SearchKeys[j]
    ensures forall i :: 0 <= i < |SearchKeys| ==> BraceFree(SearchKeys[i])
  {
  }

  /**
   * The parameter keys are distinct and brace-free, so a URL template with
   * one `{key}` placeholder gets exactly the encoded value in its place.
   */
  lemma SearchParamFillsTemplate(identity: map<string, string>, a: string, k: string, b: string, v: Json)
    requires '{' !in a && '{' !in b
    requires (k, v) in SearchParams(identity)
    ensures ReplacePlaceholders(a + "{" + k + "}" + b, SearchParams(identity)) == a + QuotePlus(PyStr(v)) + b
  {
    var p := SearchParams(identity);
    SearchKeysUsable();
    assert DistinctKeys(p);
    assert k in SearchKeys;
    BuildUrlFillsPlaceholder(a, k, b, p, v);
  }

  /** The slug parameters are URL-safe as they are: encoding leaves them unchanged. */
  lemma SlugParamsNeedNoEncoding(text: string)
    ensures QuotePlus(PyStr(JStr(Slugify(text, true)))) == Slugify(text, true)
  {
    var s := Slugify(text, true);
    assert forall j :: 0 <= j < |s| ==> Unreserved(s[j]);
  }
}
