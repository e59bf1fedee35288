/**
 * The TruePeopleSearch spider
 * (scrapegoat/app/scraping/spiders/truepeoplesearch_spider.py): builds the
 * search URL for a name and place, tries the query mutations in order
 * until one yields a result, and turns the parsed page into a result.
 *
 * The browser, the HTTP client, page verification, the LLM parser and the
 * mutation generator are parameters.
 */
module TpsSpider {
  import opened Wrappers
  import opened Json
  import opened Text
  import CaptchaSolver

  const FindBase: string := "https://www.truepeoplesearch.com/find/"
  const Source: string := "TruePeopleSearch"
  const CardLimit: nat := 8000

  // ---------------------------------------------------------------------
  // The search URL
  // ---------------------------------------------------------------------

  /** `first-last/state[/city]` before the space replacement and lower-casing. */
  function RawSlug(first: string, last: string, city: string, state: string): string {
    if city != "" then first + "-" + last + "/" + state + "/" + city else first + "-" + last + "/" + state
  }

  /** The slug: spaces become '-', then everything is lower-cased. */
  function Slug(first: string, last: string, city: string, state: string): string {
    Lower(ReplaceAll(RawSlug(first, last, city, state), " ", "-"))
  }

  function SearchUrl(first: string, last: string, city: string, state: string): string {
    FindBase + Slug(first, last, city, state)
  }

  lemma {:induction false} LowerAppend(a: string, b: string)
    ensures Lower(a + b) == Lower(a) + Lower(b)
  {
    assert forall i :: 0 <= i < |a + b| ==> Lower(a + b)[i] == (Lower(a) + Lower(b))[i];
  }

  /** Lower-casing never produces a non-letter that was not already there. */
  lemma LowerKeepsAbsent(s: string, c: char)
    requires c !in s && !IsAlpha(c)
    ensures c !in Lower(s)
  {
  }

  /** Replacing every space by '-' leaves no space. */
  lemma {:induction false} NoSpaceAfterReplace(s: string)
    ensures ' ' !in ReplaceAll(s, " ", "-")
    decreases |s|
  {
    if s != [] {
      NoSpaceAfterReplace(s[1..]);
      assert StartsWith(s, " ") <==> s[0] == ' ';
    }
  }

  /** Lower-casing and replacing spaces commute with concatenation, piece by piece. */
  lemma SlugPieces(a: string, b: string)
    ensures Lower(ReplaceAll(a + b, [' '], "-")) == Lower(ReplaceAll(a, [' '], "-")) + Lower(ReplaceAll(b, [' '], "-"))
  {
    ReplaceCharAppend(a, b, ' ', "-");
    LowerAppend(ReplaceAll(a, [' '], "-"), ReplaceAll(b, [' '], "-"));
  }

  lemma SlugNoSpace(first: string, last: string, city: string, state: string)
    ensures ' ' !in Slug(first, last, city, state)
  {
    var raw := RawSlug(first, last, city, state);
    NoSpaceAfterReplace(raw);
    LowerKeepsAbsent(ReplaceAll(raw, " ", "-"), ' ');
  }

  /** With a city, the slug ends with the city's own slug after a '/'. */
  lemma SlugCity(first: string, last: string, city: string, state: string)
    requires city != ""
    ensures EndsWith(Slug(first, last, city, state), "/" + Lower(ReplaceAll(city, " ", "-")))
  {
    var front := first + "-" + last + "/" + state;
    assert RawSlug(first, last, city, state) == front + ("/" + city);
    SlugPieces(front, "/" + city);
    SlugPieces("/", city);
    ReplaceCharAbsent("/", ' ', "-");
    assert Lower("/") == "/" by {
      assert LowerChar('/') == '/';
    }
  }

  lemma FindBaseNoSpace()
    ensures ' ' !in FindBase
  {
    assert forall i :: 0 <= i < |FindBase| ==> FindBase[i] != ' ';
  }

  /**
   * The URL holds no space and no upper-case letter, and ends with the
   * city's slug exactly when a city is given.
   */
  lemma SearchUrlShape(first: string, last: string, city: string, state: string)
    ensures var url := SearchUrl(first, last, city, state);
            ' ' !in url && StartsWith(url, FindBase) &&
            (forall i :: |FindBase| <= i < |url| ==> !IsUpper(url[i])) &&
            (city != "" ==> EndsWith(url, "/" + Lower(ReplaceAll(city, " ", "-"))))
  {
    var slug := Slug(first, last, city, state);
    SlugNoSpace(first, last, city, state);
    FindBaseNoSpace();
    var url := FindBase + slug;
    assert url[|FindBase|..] == slug;
    assert forall i :: |FindBase| <= i < |url| ==> url[i] == slug[i - |FindBase|];
    if city != "" {
      SlugCity(first, last, city, state);
      assert url[|url| - |slug|..] == slug;
    }
  }

  // ---------------------------------------------------------------------
  // Trying the mutations
  // ---------------------------------------------------------------------

  /** A query mutation: first name, last name, city, state. */
  datatype Query = Query(first: string, last: string, city: string, state: string)

  function UrlOf(q: Query): string {
    SearchUrl(q.first, q.last, q.city, q.state)
  }

  /** A spider result; an empty one is falsy. */
  type Found = map<string, Json>

  predicate Hit(r: Option<Found>) {
    r.Some? && r.value != map[]
  }

  /**
   * The first truthy result of the mutations from the i-th on, where
   * `search` stands for one search of a URL (`_search_single` after it
   * has built the URL; an exception there is a None).
   */
  function FirstHit(queries: seq<Query>, search: string -> Option<Found>, i: nat): (r: Option<Found>)
    requires i <= |queries|
    decreases |queries| - i
  {
    if i == |queries| then None
    else if Hit(search(UrlOf(queries[i]))) then search(UrlOf(queries[i]))
    else FirstHit(queries, search, i + 1)
  }

  /**
   * `extract` returns the result of the first mutation that yields one,
   * after every earlier one yielded nothing, and None only when all fail.
   */
  lemma {:induction false} FirstHitIsFirst(queries: seq<Query>, search: string -> Option<Found>, i: nat)
    requires i <= |queries|
    ensures var r := FirstHit(queries, search, i);
            (r.None? <==> forall j :: i <= j < |queries| ==> !Hit(search(UrlOf(queries[j])))) &&
            (r.Some? ==> exists k :: i <= k < |queries| && r == search(UrlOf(queries[k])) && Hit(r) &&
                                     forall j :: i <= j < k ==> !Hit(search(UrlOf(queries[j]))))
    decreases |queries| - i
  {
    if i < |queries| {
      if !Hit(search(UrlOf(queries[i]))) {
        FirstHitIsFirst(queries, search, i + 1);
        FirstHitAfterMiss(queries, search, i, FirstHit(queries, search, i + 1));
      } else {
        assert FirstHit(queries, search, i) == search(UrlOf(queries[i]));
      }
    }
  }

  /** `r` is the first hit of the mutations from the i-th on, and None only when none hits. */
  predicate IsFirstHit(queries: seq<Query>, search: string -> Option<Found>, i: nat, r: Option<Found>)
    requires i <= |queries|
  {
    (r.None? <==> forall j :: i <= j < |queries| ==> !Hit(search(UrlOf(queries[j])))) &&
    (r.Some? ==> exists k :: i <= k < |queries| && r == search(UrlOf(queries[k])) && Hit(r) &&
                             forall j :: i <= j < k ==> !Hit(search(UrlOf(queries[j]))))
  }

  /** A miss at i passes the first hit from i + 1 on, and the misses before it, back to i. */
  lemma FirstHitAfterMiss(queries: seq<Query>, search: string -> Option<Found>, i: nat, r: Option<Found>)
    requires i < |queries| && !Hit(search(UrlOf(queries[i])))
    requires IsFirstHit(queries, search, i + 1, r)
    ensures IsFirstHit(queries, search, i, r)
  {
    if r.Some? {
      var k :| i + 1 <= k < |queries| && r == search(UrlOf(queries[k])) && Hit(r) &&
               forall j :: i + 1 <= j < k ==> !Hit(search(UrlOf(queries[j])));
      assert forall j :: i <= j < k ==> !Hit(search(UrlOf(queries[j])));
    }
  }

  /** The loop of `extract` over the mutations, in order. */
  method Extract(queries: seq<Query>, search: string -> Option<Found>) returns (r: Option<Found>)
    ensures r == FirstHit(queries, search, 0)
  {
    for i := 0 to |queries|
      invariant FirstHit(queries, search, i) == FirstHit(queries, search, 0)
    {
      var result := search(UrlOf(queries[i]));
      if Hit(result) {
        return result;
      }
    }
    return None;
  }

  // ---------------------------------------------------------------------
  // Building the result
  // ---------------------------------------------------------------------

  /** A single phone string is wrapped into a one-element list. */
  function PhoneList(phones: Json): (r: Json)
    ensures phones.JStr? ==> r == JList([phones])
    ensures !phones.JStr? ==> r == phones
  {
    if phones.JStr? then JList([phones]) else phones
  }

  /**
   * The result for the parser's data: only when it has truthy
   * "Phone Numbers"; the browser path also reports the relatives.
   */
  function BuildResult(data: Option<map<string, Json>>, withRelatives: bool): (r: Option<Found>)
  {
    if data.Some? && Get(data.value, "Phone Numbers").Truthy() then
      var d := data.value;
      var base := map["phones" := PhoneList(d["Phone Numbers"]), "age" := Get(d, "Age"),
                      "address" := Get(d, "Current Address"), "source" := JStr(Source)];
      Some(if withRelatives then base["relatives" := if "Relatives" in d then d["Relatives"] else JList([])] else base)
    else None
  }

  /**
   * A result exists exactly when the parser found phone numbers; it names
   * the source, and its phones are a list whenever the parser gave one
   * number as a string.
   */
  lemma BuildResultOutcome(data: Option<map<string, Json>>, withRelatives: bool)
    ensures var r := BuildResult(data, withRelatives);
            (r.Some? <==> data.Some? && Get(data.value, "Phone Numbers").Truthy()) &&
            (r.Some? ==> r.value["source"] == JStr(Source) && Hit(r) &&
                         ("relatives" in r.value <==> withRelatives) &&
                         (data.value["Phone Numbers"].JStr? ==> r.value["phones"] == JList([data.value["Phone Numbers"]])) &&
                         r.value["phones"].Truthy())
  {
  }

  /** `s[:n]`. */
  function Prefix(s: string, n: nat): (r: string)
    ensures |r| == (if |s| <= n then |s| else n) && r == s[..|r|]
  {
    if |s| <= n then s else s[..n]
  }

  /** The HTML given to the parser on the browser path: the result card, else the first 8000 characters. */
  function CardHtml(html: string, card: Attempt<Option<string>>): (r: string) {
    if card.Ok? && card.value.Some? then card.value.value else Prefix(html, CardLimit)
  }

  /** Without a result card the parser sees at most 8000 characters of the page, from its start. */
  lemma CardHtmlBounded(html: string, card: Attempt<Option<string>>)
    requires !(card.Ok? && card.value.Some?)
    ensures |CardHtml(html, card)| <= CardLimit && CardHtml(html, card) == html[..|CardHtml(html, card)|]
  {
  }

  /**
   * The browser path tries a solver only when a CAPTCHA is detected in the
   * first page and a solver is available, or cognitive mode has a
   * non-empty `OPENAI_API_KEY`.
   */
  predicate SolveTriggered(firstHtml: string, solverAvailable: bool, cognitive: bool, openAiKey: Option<string>) {
    CaptchaSolver.Detect(firstHtml).Some? && (solverAvailable || (cognitive && openAiKey.Some? && openAiKey.value != ""))
  }

  /**
   * `_search_with_browser`, with page verification given. `firstHtml` is
   * the page after navigation and `valid` its verification; `solved` is
   * whether the solve attempt succeeded (a solve that raises counts as a
   * failure), `refetched` the page fetched again after it and `revalid`
   * its verification. The page counts when it verified at once, or when
   * the solve was triggered, succeeded and the re-fetched page verified;
   * the card is then looked up in the page that verified.
   */
  function SearchWithBrowser(firstHtml: string, valid: bool,
                             solverAvailable: bool, cognitive: bool, openAiKey: Option<string>,
                             solved: bool, refetched: string, revalid: bool,
                             card: Attempt<Option<string>>, parse: string -> Option<map<string, Json>>): (r: Option<Found>)
    ensures r.Some? ==> (valid || (SolveTriggered(firstHtml, solverAvailable, cognitive, openAiKey) && solved && revalid)) &&
                        "relatives" in r.value
    ensures valid ==> r == BuildResult(parse(CardHtml(firstHtml, card)), true)
  {
    var rescued := SolveTriggered(firstHtml, solverAvailable, cognitive, openAiKey) && solved && revalid;
    if valid then BuildResult(parse(CardHtml(firstHtml, card)), true)
    else if rescued then BuildResult(parse(CardHtml(refetched, card)), true)
    else None
  }

  /** A page that did not verify, and was not rescued by a triggered solve, gives nothing. */
  lemma BlockedPageGivesNothing(firstHtml: string, valid: bool,
                                solverAvailable: bool, cognitive: bool, openAiKey: Option<string>,
                                solved: bool, refetched: string, revalid: bool,
                                card: Attempt<Option<string>>, parse: string -> Option<map<string, Json>>)
    requires !valid && !(SolveTriggered(firstHtml, solverAvailable, cognitive, openAiKey) && solved && revalid)
    ensures SearchWithBrowser(firstHtml, valid, solverAvailable, cognitive, openAiKey,
                              solved, refetched, revalid, card, parse) == None
  {
  }

  /**
   * An unverified first page with no CAPTCHA detected, or with no solver
   * and no cognitive mode with an OpenAI key, gives nothing, whatever the
   * solve attempt and the re-fetched page would have been.
   */
  lemma UntriggeredBlockedGivesNothing(firstHtml: string,
                                       solverAvailable: bool, cognitive: bool, openAiKey: Option<string>,
                                       solved: bool, refetched: string, revalid: bool,
                                       card: Attempt<Option<string>>, parse: string -> Option<map<string, Json>>)
    requires CaptchaSolver.Detect(firstHtml).None? ||
             (!solverAvailable && !(cognitive && openAiKey.Some? && openAiKey.value != ""))
    ensures SearchWithBrowser(firstHtml, false, solverAvailable, cognitive, openAiKey,
                              solved, refetched, revalid, card, parse) == None
  {
    BlockedPageGivesNothing(firstHtml, false, solverAvailable, cognitive, openAiKey, solved, refetched, revalid, card, parse);
  }

  /**
   * A rescued page is the re-fetched one: after a triggered, successful
   * solve whose re-fetched page verifies, the result is that of the
   * re-fetched page.
   */
  lemma RescuedPageIsRefetched(firstHtml: string,
                               solverAvailable: bool, cognitive: bool, openAiKey: Option<string>,
                               refetched: string,
                               card: Attempt<Option<string>>, parse: string -> Option<map<string, Json>>)
    requires SolveTriggered(firstHtml, solverAvailable, cognitive, openAiKey)
    ensures SearchWithBrowser(firstHtml, false, solverAvailable, cognitive, openAiKey,
                              true, refetched, true, card, parse) == BuildResult(parse(CardHtml(refetched, card)), true)
  {
  }

  /** Python's `status == 429`: an int or a float of that value. */
  predicate Is429(status: Json) {
    status == JInt(429) || status == JFloat(429.0)
  }

  /** `_search_with_http`, with page verification and parsing given. */
  function SearchWithHttp(response: map<string, Json>, verify: string -> bool,
                          parse: string -> Option<map<string, Json>>): (r: Option<Found>)
    ensures r.Some? ==> "text" in response && response["text"].JStr? && verify(response["text"].s) &&
                        !Is429(Get(response, "status")) && "relatives" !in r.value
  {
    if "text" !in response || !response["text"].JStr? then None
    else
      var html := response["text"].s;
      var low := Lower(html);
      var status := if "status" in response then response["status"] else JInt(200);
      if Contains(low, "cf-browser-verification") || Contains(low, "checking your browser") then None
      else if Is429(status) || Contains(low, "too many requests") then None
      else if !verify(html) then None
      else BuildResult(parse(Prefix(html, CardLimit)), false)
  }

  /**
   * A Cloudflare challenge page, a 429 or "too many requests" gives nothing
   * before any parsing: the outcome does not depend on the parser.
   */
  lemma BlockedBeforeParsing(response: map<string, Json>, verify: string -> bool,
                             parse1: string -> Option<map<string, Json>>, parse2: string -> Option<map<string, Json>>)
    requires "text" in response && response["text"].JStr?
    requires var low := Lower(response["text"].s);
             Contains(low, "cf-browser-verification") || Contains(low, "checking your browser") ||
             Is429(Get(response, "status")) || Contains(low, "too many requests")
    ensures SearchWithHttp(response, verify, parse1) == None
    ensures SearchWithHttp(response, verify, parse2) == None
  {
  }

  // ---------------------------------------------------------------------
  // The spider object
  // ---------------------------------------------------------------------

  /** The spider's browser: started on first use and kept until closed. */
  class Spider {
    const useBrowserMode: bool
    var browserOpen: bool
    var launches: nat

    constructor(browserModeAvailable: bool)
      ensures useBrowserMode == browserModeAvailable && !browserOpen && launches == 0
    {
      useBrowserMode := browserModeAvailable;
      browserOpen := false;
      launches := 0;
    }

    /**
     * `_get_browser_scraper`: raises when browser mode is unavailable;
     * otherwise starts a browser only if none is open.
     */
    method GetBrowser() returns (ok: bool)
      modifies this
      ensures ok == useBrowserMode
      ensures browserOpen == (old(browserOpen) || useBrowserMode)
      ensures launches == old(launches) + (if useBrowserMode && !old(browserOpen) then 1 else 0)
    {
      if !useBrowserMode {
        return false;
      }
      if !browserOpen {
        browserOpen := true;
        launches := launches + 1;
      }
      return true;
    }

    /** `close`: the browser, if any, is closed and forgotten. */
    method Close()
      modifies this
      ensures !browserOpen && launches == old(launches)
    {
      browserOpen := false;
    }
  }

  /** Two searches in a row start the browser at most once. */
  method TwoSearches(s: Spider) returns (first: bool, second: bool)
    requires !s.browserOpen
    modifies s
    ensures first == second == s.useBrowserMode
    ensures s.launches == old(s.launches) + (if s.useBrowserMode then 1 else 0)
  {
    first := s.GetBrowser();
    second := s.GetBrowser();
  }
}
