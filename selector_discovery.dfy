/**
 * Heuristic selector discovery (scrapegoat/app/enrichment/selector_discovery.py):
 * for each lead field, try a fixed list of CSS patterns against a page and
 * keep the first one whose value passes the field's validator, producing a
 * blueprint extraction map and a confidence per field.
 *
 * The HTML parser is not modelled: `selectOne` stands for the parsed page's
 * `select_one`, returning the first element a CSS selector matches.
 */
module SelectorDiscovery {
  import opened Wrappers
  import opened Text
  import Validators
  import ScrapeEnrich

  type Element = ScrapeEnrich.Element

  /** How a pattern reads the element it selects. */
  datatype Transform = NoTransform | StripTel | StripMailto
  datatype Extract = ReadText | ReadHref(transform: Transform) | ReadAttr(name: string)
  datatype FieldPattern = FieldPattern(selector: string, extract: Extract)

  /** The candidate patterns per field, in the order they are tried. */
  const FieldPatterns: seq<(string, seq<FieldPattern>)> := [
    ("phone", [
      FieldPattern("a[href^='tel:']", ReadHref(StripTel)),
      FieldPattern("a[href^='tel:']", ReadText),
      FieldPattern(".phone-number", ReadText),
      FieldPattern(".phone", ReadText),
      FieldPattern("[class*='phone']", ReadText),
      FieldPattern("[data-phone]", ReadAttr("data-phone")),
      FieldPattern("[itemprop='telephone']", ReadText)]),
    ("email", [
      FieldPattern("a[href^='mailto:']", ReadHref(StripMailto)),
      FieldPattern("a[href^='mailto:']", ReadText),
      FieldPattern(".email", ReadText),
      FieldPattern("[class*='email']", ReadText),
      FieldPattern("[itemprop='email']", ReadText)]),
    ("name", [
      FieldPattern("h1", ReadText),
      FieldPattern("[itemprop='name']", ReadText),
      FieldPattern(".card-title", ReadText),
      FieldPattern(".name", ReadText)]),
    ("age", [
      FieldPattern(".age", ReadText),
      FieldPattern("[class*='age']", ReadText),
      FieldPattern(".detail-box-age", ReadText)]),
    ("address", [
      FieldPattern("[itemprop='streetAddress']", ReadText),
      FieldPattern(".address", ReadText),
      FieldPattern("[class*='address']", ReadText),
      FieldPattern(".detail-box-address", ReadText)]),
    ("city", [
      FieldPattern("[itemprop='addressLocality']", ReadText),
      FieldPattern(".city", ReadText)]),
    ("state", [
      FieldPattern("[itemprop='addressRegion']", ReadText),
      FieldPattern(".state", ReadText)]),
    ("zipcode", [
      FieldPattern("[itemprop='postalCode']", ReadText),
      FieldPattern(".zip", ReadText),
      FieldPattern(".zipcode", ReadText)]),
    ("income", [
      FieldPattern(".income", ReadText),
      FieldPattern("[class*='income']", ReadText)])
  ]

  // ---------------------------------------------------------------------
  // _accept and _confidence
  // ---------------------------------------------------------------------

  /**
   * `_accept(field, value)`: blank values are rejected; phone, email, name
   * and age go to their validators, every other field to the reasonable
   * string check.
   */
  predicate Accept(field: string, value: string) {
    if value == [] || Strip(value) == [] then false
    else if field == "phone" then Validators.IsPlausiblePhone(Some(value))
    else if field == "email" then Validators.IsPlausibleEmail(Some(value))
    else if field == "name" then Validators.IsPlausibleName(Some(value))
    else if field == "age" then Validators.IsPlausibleAge(Some(value))
    else Validators.IsReasonableString(Some(value))
  }

  /** A blank value is never accepted; a field without a validator of its own needs a reasonable string. */
  lemma AcceptRules(field: string, value: string)
    ensures Strip(value) == [] ==> !Accept(field, value)
    ensures field !in {"phone", "email", "name", "age"} ==>
              (Accept(field, value) <==> Strip(value) != [] && Validators.IsReasonableString(Some(value)))
  {
  }

  /**
   * `_confidence(field, pattern, value, selector)`: 0.5, plus 0.3 for an
   * `itemprop` selector, 0.2 when the selector names the field, 0.3 for a
   * `tel:`/`mailto:` link, 0.1 for an accepted value; at most 1.0.
   */
  function Confidence(field: string, p: FieldPattern, value: string): (c: real)
    ensures 0.5 <= c <= 1.0
    ensures Accept(field, value) ==> 0.6 <= c
    ensures Contains(p.selector, "itemprop") && Contains(p.selector, field) ==> c == 1.0
  {
    var sel := p.selector;
    var c := 0.5
      + (if Contains(sel, "itemprop") then 0.3 else 0.0)
      + (if Contains(sel, field) then 0.2 else 0.0)
      + (if Contains(sel, "tel:") || Contains(sel, "mailto:") then 0.3 else 0.0)
      + (if Accept(field, value) then 0.1 else 0.0);
    if c < 1.0 then c else 1.0
  }

  // ---------------------------------------------------------------------
  // discover
  // ---------------------------------------------------------------------

  /** `el.get(name) or ""`. */
  function AttrOr(el: Element, name: string): string {
    if name in el.attrs then el.attrs[name] else ""
  }

  /** The value a pattern reads from the element, and the blueprint selector that reads it back. */
  function Reading(p: FieldPattern, el: Element): (r: (string, string))
    ensures p.extract.ReadText? ==> r == (el.text, p.selector + "::text")
    ensures p.extract.ReadAttr? ==> r == (AttrOr(el, p.extract.name), p.selector + "::attr(" + p.extract.name + ")")
    ensures p.extract.ReadHref? ==> r.1 == p.selector + "::attr(href)"
  {
    match p.extract
    case ReadText => (el.text, p.selector + "::text")
    case ReadHref(t) =>
      var v := AttrOr(el, "href");
      var value :=
        if t == StripTel && StartsWith(v, "tel:") then Strip(v[4..])
        else if t == StripMailto && StartsWith(v, "mailto:") then Strip(v[7..])
        else v;
      (value, p.selector + "::attr(href)")
    case ReadAttr(name) => (AttrOr(el, name), p.selector + "::attr(" + name + ")")
  }

  /** One pattern tried for `field`: the selector to record and its confidence, when its value is accepted. */
  function Try(field: string, p: FieldPattern, selectOne: string -> Option<Element>): (r: Option<(string, real)>)
    ensures r.Some? ==> p.selector != [] && selectOne(p.selector).Some?
    ensures r.Some? ==> var (value, out) := Reading(p, selectOne(p.selector).value);
                        Accept(field, value) && r.value == (out, Confidence(field, p, value))
  {
    if p.selector == [] then None
    else match selectOne(p.selector)
      case None => None
      case Some(el) =>
        var (value, out) := Reading(p, el);
        if Accept(field, value) then Some((out, Confidence(field, p, value))) else None
  }

  /** The first pattern, in order, that gives an accepted value. */
  function FirstAccepted(field: string, ps: seq<FieldPattern>, selectOne: string -> Option<Element>): (r: Option<(string, real)>)
    ensures r.Some? ==> 0.6 <= r.value.1 <= 1.0
  {
    if ps == [] then None
    else match Try(field, ps[0], selectOne)
      case Some(hit) => Some(hit)
      case None => FirstAccepted(field, ps[1..], selectOne)
  }

  /** The selector chosen is that of the first accepted pattern; every earlier pattern was rejected. */
  lemma {:induction false} FirstAcceptedIsFirst(field: string, ps: seq<FieldPattern>, selectOne: string -> Option<Element>)
    returns (k: nat)
    requires FirstAccepted(field, ps, selectOne).Some?
    ensures k < |ps| && FirstAccepted(field, ps, selectOne) == Try(field, ps[k], selectOne)
    ensures forall j :: 0 <= j < k ==> Try(field, ps[j], selectOne).None?
  {
    if Try(field, ps[0], selectOne).Some? {
      k := 0;
    } else {
      var k' := FirstAcceptedIsFirst(field, ps[1..], selectOne);
      k := k' + 1;
      forall j | 0 <= j < k ensures Try(field, ps[j], selectOne).None? {
        if j > 0 { assert ps[j] == ps[1..][j - 1]; }
      }
    }
  }

  /** No accepted pattern: the field is left out. */
  lemma {:induction false} NoneAccepted(field: string, ps: seq<FieldPattern>, selectOne: string -> Option<Element>)
    requires forall j :: 0 <= j < |ps| ==> Try(field, ps[j], selectOne).None?
    ensures FirstAccepted(field, ps, selectOne).None?
  {
    if ps != [] {
      NoneAccepted(field, ps[1..], selectOne);
    }
  }

  /** What the nested loops have built after the fields of `fps`, in order. */
  function DiscoverFields(fps: seq<(string, seq<FieldPattern>)>, selectOne: string -> Option<Element>)
    : (r: (map<string, string>, map<string, real>))
    ensures r.0.Keys == r.1.Keys
    ensures forall f :: f in r.0 ==> exists i :: 0 <= i < |fps| && fps[i].0 == f
    ensures forall f :: f in r.1 ==> 0.6 <= r.1[f] <= 1.0
  {
    if fps == [] then (map[], map[])
    else
      var (e, c) := DiscoverFields(fps[..|fps| - 1], selectOne);
      var (field, ps) := fps[|fps| - 1];
      assert forall i :: 0 <= i < |fps| - 1 ==> fps[..|fps| - 1][i] == fps[i];
      match FirstAccepted(field, ps, selectOne)
      case None => (e, c)
      case Some(hit) => (e[field := hit.0], c[field := hit.1])
  }

  /** Whether the page is too short to search: empty, or under 100 characters once trimmed. */
  predicate TooShort(html: string) {
    html == [] || |Strip(html)| < 100
  }

  /** The maps `discover(html, base_url)` returns. */
  function Discovery(html: string, parserAvailable: bool, selectOne: string -> Option<Element>)
    : (r: (map<string, string>, map<string, real>))
    ensures r.0.Keys == r.1.Keys
    ensures !parserAvailable || TooShort(html) ==> r == (map[], map[])
    ensures forall f :: f in r.1 ==> 0.6 <= r.1[f] <= 1.0
  {
    if !parserAvailable || TooShort(html) then (map[], map[])
    else DiscoverFields(FieldPatterns, selectOne)
  }

  /**
   * The loops of `discover(html, base_url)` over a pattern table: for each
   * field in order, the patterns in order, stopping at the first accepted
   * value.
   */
  method DiscoverLoop(fps: seq<(string, seq<FieldPattern>)>, selectOne: string -> Option<Element>)
    returns (extraction: map<string, string>, confidence: map<string, real>)
    ensures (extraction, confidence) == DiscoverFields(fps, selectOne)
  {
    extraction, confidence := map[], map[];
    for i := 0 to |fps|
      invariant (extraction, confidence) == DiscoverFields(fps[..i], selectOne)
    {
      assert fps[..i + 1][..i] == fps[..i];
      var (field, patterns) := fps[i];
      var j := 0;
      var found := false;
      while j < |patterns|
        invariant 0 <= j <= |patterns|
        invariant FirstAccepted(field, patterns, selectOne) == FirstAccepted(field, patterns[j..], selectOne)
        invariant (extraction, confidence) == DiscoverFields(fps[..i], selectOne)
        decreases |patterns| - j
      {
        var p := patterns[j];
        assert patterns[j..][1..] == patterns[j + 1..];
        if p.selector == [] {
          j := j + 1;
          continue;
        }
        var el := selectOne(p.selector);
        if el.None? {
          j := j + 1;
          continue;
        }
        var (value, outSel) := Reading(p, el.value);
        if Accept(field, value) {
          assert FirstAccepted(field, patterns, selectOne) == Some((outSel, Confidence(field, p, value)));
          extraction := extraction[field := outSel];
          confidence := confidence[field := Confidence(field, p, value)];
          found := true;
          break;
        }
        j := j + 1;
      }
      if !found {
        assert FirstAccepted(field, patterns, selectOne).None?;
      }
    }
    assert fps[..|fps|] == fps;
  }

  /** `discover(html, base_url)`. */
  method Discover(html: string, parserAvailable: bool, selectOne: string -> Option<Element>)
    returns (extraction: map<string, string>, confidence: map<string, real>)
    ensures (extraction, confidence) == Discovery(html, parserAvailable, selectOne)
  {
    if !parserAvailable || html == [] || |Strip(html)| < 100 {
      return map[], map[];
    }
    extraction, confidence := DiscoverLoop(FieldPatterns, selectOne);
  }

  // ---------------------------------------------------------------------
  // overall_confidence
  // ---------------------------------------------------------------------

  /** The sum of the values of `m`, taken key by key. */
  ghost function Total(m: map<string, real>): real
    decreases |m.Keys|
  {
    if m == map[] then 0.0
    else
      var k :| k in m;
      m[k] + Total(m - {k})
  }

  /** The total does not depend on the key taken first. */
  lemma {:induction false} TotalRemove(m: map<string, real>, k: string)
    requires k in m
    ensures Total(m) == m[k] + Total(m - {k})
    decreases |m.Keys|
  {
    var j :| j in m && Total(m) == m[j] + Total(m - {j});
    if j != k {
      assert (m - {j}).Keys == m.Keys - {j};
      assert (m - {k}).Keys == m.Keys - {k};
      TotalRemove(m - {j}, k);
      TotalRemove(m - {k}, j);
      assert m - {j} - {k} == m - {k} - {j};
    }
  }

  /** `x` added to itself `n` times. */
  function Times(n: nat, x: real): (r: real)
    ensures r == (n as real) * x
  {
    if n == 0 then 0.0 else Times(n - 1, x) + x
  }

  /** Values between `lo` and `hi` sum to between `|m|` times `lo` and `|m|` times `hi`. */
  lemma {:induction false} TotalBounds(m: map<string, real>, lo: real, hi: real)
    requires forall k :: k in m ==> lo <= m[k] <= hi
    ensures Times(|m|, lo) <= Total(m) <= Times(|m|, hi)
    decreases |m.Keys|
  {
    if m != map[] {
      var k :| k in m && Total(m) == m[k] + Total(m - {k});
      var rest := m - {k};
      TotalBounds(rest, lo, hi);
      assert rest.Keys == m.Keys - {k};
      assert |rest| == |m| - 1;
    }
  }

  /**
   * `overall_confidence(confidence_per, extraction)`: 0.0 for no fields;
   * otherwise the mean, raised to 0.55 when a phone or email was found,
   * capped at 1.0.
   */
  ghost function OverallConfidence(confidence: map<string, real>, extraction: map<string, string>): (o: real)
    ensures confidence == map[] ==> o == 0.0
    ensures o <= 1.0
    ensures confidence != map[] && ("phone" in extraction || "email" in extraction) ==> o >= 0.55
    ensures confidence != map[] && !("phone" in extraction || "email" in extraction) ==>
              o == if Total(confidence) / (|confidence| as real) < 1.0 then Total(confidence) / (|confidence| as real) else 1.0
  {
    if confidence == map[] then 0.0
    else
      var mean := Total(confidence) / (|confidence| as real);
      var o := if "phone" in extraction || "email" in extraction then (if mean < 0.55 then 0.55 else mean) else mean;
      if o < 1.0 then o else 1.0
  }

  /**
   * For per-field confidences as `discover` produces them (each between 0.6
   * and 1.0), the overall confidence is between 0.6 and 1.0.
   */
  lemma OverallConfidenceBounds(confidence: map<string, real>, extraction: map<string, string>)
    requires confidence != map[]
    requires forall f :: f in confidence ==> 0.6 <= confidence[f] <= 1.0
    ensures 0.6 <= OverallConfidence(confidence, extraction) <= 1.0
  {
    TotalBounds(confidence, 0.6, 1.0);
    var n := |confidence| as real;
    var t := Total(confidence);
    MeanAtLeast(t, n, 0.6);
  }

  /**
   * `overall_confidence(confidence_per, extraction)` as the source computes
   * it: the values summed one by one, divided by their number, then the
   * floor and the cap.
   */
  method ComputeOverallConfidence(confidence: map<string, real>, extraction: map<string, string>) returns (o: real)
    ensures o == OverallConfidence(confidence, extraction)
  {
    if confidence == map[] {
      return 0.0;
    }
    var total := 0.0;
    var rest := confidence;
    while rest != map[]
      invariant total + Total(rest) == Total(confidence)
      decreases |rest.Keys|
    {
      var k :| k in rest;
      TotalRemove(rest, k);
      assert (rest - {k}).Keys == rest.Keys - {k};
      total := total + rest[k];
      rest := rest - {k};
    }
    assert total == Total(confidence);
    var mean := total / (|confidence| as real);
    var floored := mean;
    if "phone" in extraction || "email" in extraction {
      floored := if mean < 0.55 then 0.55 else mean;
    }
    o := if floored < 1.0 then floored else 1.0;
  }

  /** A total of at least `n` times `b` has a mean of at least `b`. */
  lemma MeanAtLeast(t: real, n: real, b: real)
    requires n > 0.0 && t >= n * b
    ensures t / n >= b
  {
    var q := t / n;
    assert q * n == t;
    if q < b {
      assert q * n < b * n;
    }
  }

  /** The overall confidence of a non-empty discovery lies between 0.6 and 1.0. */
  lemma DiscoveredConfidence(html: string, parserAvailable: bool, selectOne: string -> Option<Element>)
    requires Discovery(html, parserAvailable, selectOne).1 != map[]
    ensures var (e, c) := Discovery(html, parserAvailable, selectOne);
            0.6 <= OverallConfidence(c, e) <= 1.0
  {
    var (e, c) := Discovery(html, parserAvailable, selectOne);
    OverallConfidenceBounds(c, e);
  }

  // ---------------------------------------------------------------------
  // Reading discovered selectors back
  // ---------------------------------------------------------------------

  /** A discovered text selector parses back to the pattern's CSS selector. */
  lemma TextSelectorReadsBack(sel: string)
    requires sel != [] && '\n' !in sel
    ensures ScrapeEnrich.ParseCss(sel + "::text") == ScrapeEnrich.TextQuery(sel)
  {
    ScrapeEnrich.ParseCssTextRoundTrip(sel, true);
  }

  /** A discovered attribute selector parses back to the pattern's selector and attribute. */
  lemma AttrSelectorReadsBack(sel: string, attr: string)
    requires sel != [] && '\n' !in sel && attr != []
    requires forall i :: 0 <= i < |attr| ==> ScrapeEnrich.AttrNameChar(attr[i], true)
    ensures ScrapeEnrich.ParseCss(sel + "::attr(" + attr + ")") == ScrapeEnrich.AttrQuery(sel, attr)
  {
    ScrapeEnrich.ParseCssAttrRoundTrip(sel, attr);
  }

  /**
   * The `[data-phone]` pattern records "[data-phone]::attr(data-phone)".
   * The selector parse as written (`\w+` for the attribute name) does not
   * see an attribute in it and treats the whole string as a text selector;
   * the corrected parse reads the `data-phone` attribute.
   */
  lemma DataPhoneSelector()
    ensures ScrapeEnrich.ParseCssAsWritten("[data-phone]::attr(data-phone)")
              == ScrapeEnrich.TextQuery("[data-phone]::attr(data-phone)")
    ensures ScrapeEnrich.ParseCss("[data-phone]::attr(data-phone)")
              == ScrapeEnrich.AttrQuery("[data-phone]", "data-phone")
  {
    var css, attr := "[data-phone]", "data-phone";
    assert css + "::attr(" + attr + ")" == "[data-phone]::attr(data-phone)";
    assert attr[4] == '-';
    assert forall i :: 0 <= i < |attr| ==> ScrapeEnrich.AttrNameChar(attr[i], true);
    ScrapeEnrich.HyphenatedAttrNotRecognised(css, attr);
    ScrapeEnrich.ParseCssAttrRoundTrip(css, attr);
  }
}
