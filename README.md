# scrapeshifter enrichment core, in Dafny

This project models the deterministic core of the scrapeshifter lead-enrichment system and proves properties of that model.

The system takes a lead, usually a LinkedIn profile with a name, a title and a place. It runs the lead through a pipeline of stations. The stations resolve the lead's identity, pick a people-search provider and its blueprint, send a deep-search mission to the Chimera vision workers, skip-trace a phone number, check the number's line type and the Do-Not-Call registry, and save a golden record. Blueprints tell the scraper how to query a site and read its answer. They are discovered heuristically from a page, committed to Redis, seeded for a magazine of known sites, and loaded again per lead. A Redis queue worker feeds the pipeline, retries failures and keeps a dead-letter list. The HTTP API can requeue leads from that list.

The modules follow the source files, one module per file:

- Foundations:
  - `Wrappers`: Option and Result values.
  - `Text`: ASCII versions of the Python string methods and small regular expressions the code uses.
  - `Json`: decoded JSON with Python truthiness and `str()`.
  - `Redis`: the shared store. It has strings, hashes, sets and lists, as a value (`Db`) and as a connection object (`Store`).
- Enrichment:
  - `Validators`
  - `ScraperEnrichment`: normalisers, the JSON-path reader and request building.
  - `ScrapeEnrich`: selector parsing, extraction loops and the site loop.
  - `IdentityResolution`
  - `SkipTracing`
  - `SelectorDiscovery`
  - `AutoMap`
  - `BlueprintCommit`
  - `SeedMagazine`
  - `Database`
  - `DncScrub`
- Pipeline:
  - `PipelineTypes`
  - `PipelineEngine`
  - `PoisonValidator`
  - `BlueprintLoader`
  - `Stations`
- Workers and API:
  - `QueueWorker`
  - `Api`
- Scraping:
  - `CaptchaSolver`
  - `TpsSpider`
- Brain and agent:
  - `Vision`
  - `SelectorRegistry`
  - `CaptchaAgent`

Code that changes state step by step is imperative Dafny:

- the pipeline context;
- the queue worker;
- the selector registry;
- the store operations of commit, auto-map, loader and API;
- the polling and click loops.

Each such method is proved against a specification function of the old state. The properties are proved as lemmas about that function. Everything the code calls out to is a parameter of the model. That covers the browser, HTTP services, the language models, the provider router, the HTML parser, `json.loads`/`json.dumps`, the clock and SHA-256. Floating-point numbers are exact reals.

## Model

| member | source | states |
|---|---|---|
| Validators.IsPlausiblePhone | scrapegoat/app/enrichment/validators.py:10-15 | a value is a plausible phone exactly when it is present and its digits number ten, or eleven starting with 1 |
| Validators.IsPlausibleEmail | scrapegoat/app/enrichment/validators.py:18-26 | a value is a plausible email exactly when the stripped text holds a single '@' with a non-empty local part and a domain of at least four characters containing a dot |
| Validators.IsPlausibleName | scrapegoat/app/enrichment/validators.py:29-42 | an accepted name is 2 to 120 stripped characters, at most half of them digits, with 2 to 6 words |
| Validators.IsPlausibleAge | scrapegoat/app/enrichment/validators.py:45-56 | a value is a plausible age exactly when it is present and its digits, read as one number, lie in 1..120 |
| Validators.IsReasonableString | scrapegoat/app/enrichment/validators.py:59-64 | a value is reasonable exactly when it is present and strips to between 1 and max_len characters |
| Validators.RejectsMissing | scrapegoat/app/enrichment/validators.py:12-13 | every validator rejects None and the empty string |
| Validators.NameRejectsWebAddress | scrapegoat/app/enrichment/validators.py:36-37 | a name containing "http", "www." or ".com" in any letter case is rejected |
| Validators.AgeReadsDigitsOnly | scrapegoat/app/enrichment/validators.py:49-54 | the age check depends only on the digits of the value |
| Validators.AgeOfNumber | scrapegoat/app/enrichment/validators.py:45-56 | the decimal text of n is a plausible age exactly when 1 <= n <= 120 |
| Validators.AgeWithLeadingZeros | scrapegoat/app/enrichment/validators.py:49-53 | a digit string with leading zeros ("045") is a plausible age exactly when the number it reads as lies in 1..120 |
| Validators.ReasonableMonotone | scrapegoat/app/enrichment/validators.py:59-64 | a value reasonable for a length bound stays reasonable for any larger bound |
| Validators.PhoneExamples | scrapegoat/app/enrichment/validators.py:10-15 | ten digits and eleven with a leading 1 are accepted; eleven with another lead digit and seven digits are rejected |
| Validators.CountChar | scrapegoat/app/enrichment/validators.py:23 | the count of a character is zero exactly when the character is absent |
| Validators.IndexOf | scrapegoat/app/enrichment/validators.py:25 | the split point is the first occurrence of the character |
| ScrapeEnrich.MatchAttr | scrapegoat/app/enrichment/scraper_enrichment.py:212 | an attribute match has a non-empty selector part without a newline and a non-empty attribute name of word characters |
| ScrapeEnrich.ParseCssWith | scrapegoat/app/enrichment/scraper_enrichment.py:212-224 | a selector is an attribute query exactly when the attribute pattern matches, and a selector matching neither suffix is used whole |
| ScrapeEnrich.ParseCssAttrRoundTrip | scrapegoat/app/enrichment/scraper_enrichment.py:212-219 | "css::attr(name)" parses to the attribute query for css and name, hyphenated names included |
| ScrapeEnrich.ParseCssTextRoundTrip | scrapegoat/app/enrichment/scraper_enrichment.py:213-222 | "css::text" parses to the text query for css |
| ScrapeEnrich.HyphenatedAttrNotRecognised | scrapegoat/app/enrichment/scraper_enrichment.py:212-224 | as written, "css::attr(name)" with a hyphen in the name is passed whole to the CSS engine |
| ScrapeEnrich.ExtractByCssWith | scrapegoat/app/enrichment/scraper_enrichment.py:201-233 | a value is found only when the selector part selects an element |
| ScrapeEnrich.ExtractAttr | scrapegoat/app/enrichment/scraper_enrichment.py:215-219 | an attribute selector yields that attribute of the selected element |
| ScrapeEnrich.Picked | scrapegoat/app/enrichment/scraper_enrichment.py:191-197 | the extracted fields are among the configured fields and each holds its non-empty picked value |
| ScrapeEnrich.CollectFields | scrapegoat/app/enrichment/scraper_enrichment.py:189-199 | the loop over the extraction paths collects exactly the picked fields |
| ScrapeEnrich.CssPick | scrapegoat/app/enrichment/scraper_enrichment.py:192-197 | a CSS value is taken only for a selector not starting with "$." and only when non-empty |
| ScrapeEnrich.HtmlFields | scrapegoat/app/enrichment/scraper_enrichment.py:188-199 | HTML extraction yields only configured non-JSON-path fields, each a non-empty string |
| ScrapeEnrich.ExtractFromHtml | scrapegoat/app/enrichment/scraper_enrichment.py:166-199 | the method computes the page's result: the CAPTCHA marker for a short page with an indicator, otherwise the CSS fields |
| ScrapeEnrich.LargePageIsParsed | scrapegoat/app/enrichment/scraper_enrichment.py:184-188 | a page of 50000 characters or more is always parsed, whatever words it holds |
| ScrapeEnrich.ShortPageWithIndicator | scrapegoat/app/enrichment/scraper_enrichment.py:177-187 | a page shorter than 50000 characters containing "CAPTCHA" in any case gives only the _captcha_detected marker |
| ScrapeEnrich.JsonPick | scrapegoat/app/enrichment/scraper_enrichment.py:160-163 | a JSON value is taken only for a "$." path and only when non-empty |
| ScrapeEnrich.JsonFields | scrapegoat/app/enrichment/scraper_enrichment.py:156-164 | JSON extraction yields only configured "$." fields, each a non-empty string |
| ScrapeEnrich.ExtractFromJson | scrapegoat/app/enrichment/scraper_enrichment.py:156-164 | the loop over the extraction paths computes the JSON fields |
| ScrapeEnrich.JsonExtractsNested | scrapegoat/app/enrichment/scraper_enrichment.py:156-164 | a field whose path leads to a non-empty value is extracted as that value's text |
| ScrapeEnrich.IntOf | scrapegoat/app/enrichment/scraper_enrichment.py:465 | int() of an integer is itself, of a string its decimal reading, and of None, a list or a dictionary fails |
| ScrapeEnrich.SitePhone | scrapegoat/app/enrichment/scraper_enrichment.py:455-459 | a kept phone is non-empty and starts with '+' |
| ScrapeEnrich.SiteAge | scrapegoat/app/enrichment/scraper_enrichment.py:462-469 | a kept age lies between 18 and 120 |
| ScrapeEnrich.SiteIncome | scrapegoat/app/enrichment/scraper_enrichment.py:472-476 | a kept income is non-empty |
| ScrapeEnrich.SiteEmail | scrapegoat/app/enrichment/scraper_enrichment.py:479-481 | a kept email contains '@' |
| ScrapeEnrich.AssembleSiteResult | scrapegoat/app/enrichment/scraper_enrichment.py:452-490 | the result is None exactly when nothing was kept; otherwise it holds exactly the kept fields with their values |
| ScrapeEnrich.SitePhoneNormalized | scrapegoat/app/enrichment/scraper_enrichment.py:455-459 | a plausible phone under "phone" is kept as +1 and its last ten digits |
| ScrapeEnrich.SiteAgeRange | scrapegoat/app/enrichment/scraper_enrichment.py:462-469 | an age given as the decimal text of n is kept exactly when 18 <= n <= 120 |
| ScrapeEnrich.TrySite | scrapegoat/app/enrichment/scraper_enrichment.py:405-506 | any result of trying a site holds only well-formed phone, age, income and email fields |
| ScrapeEnrich.CaptchaWithoutBrowserFails | scrapegoat/app/enrichment/scraper_enrichment.py:442-449 | without browser mode a CAPTCHA marker ends the attempt with None |
| ScrapeEnrich.CaptchaRetriedInBrowser | scrapegoat/app/enrichment/scraper_enrichment.py:442-446 | with browser mode available a CAPTCHA marker retries the site in browser mode, and that run decides |
| ScrapeEnrich.AvailableSites | scrapegoat/app/enrichment/scraper_enrichment.py:370 | the available sites are exactly the listed sites with a blueprint |
| ScrapeEnrich.AvailableHeadIsFirst | scrapegoat/app/enrichment/scraper_enrichment.py:341-344 | the first available site is preceded in the list only by sites without a blueprint |
| ScrapeEnrich.FindAvailableSite | scrapegoat/app/enrichment/scraper_enrichment.py:334-345 | the chosen site has a blueprint and every site before it in the priority list has none; None means no listed site has one |
| ScrapeEnrich.FirstWithPhone | scrapegoat/app/enrichment/scraper_enrichment.py:513-527 | a non-empty result has a truthy phone; the result is empty exactly when no site's result has a phone |
| ScrapeEnrich.PriorityWins | scrapegoat/app/enrichment/scraper_enrichment.py:513-524 | the result is that of the first site, in priority order, whose result has a phone |
| ScrapeEnrich.ScrapeEnrichSites | scrapegoat/app/enrichment/scraper_enrichment.py:369-527 | the method returns the first result with a phone among the sites with a blueprint, or the empty dictionary |
| ScrapeEnrich.ScrapePhoneIsNormalized | scrapegoat/app/enrichment/scraper_enrichment.py:405-527 | the returned result is empty or a well-formed normalised result holding a phone |
| ScrapeEnrich.SearchParams | scrapegoat/app/enrichment/scraper_enrichment.py:381-396 | the request parameters are name, city, state, state_lower, zipcode and the four slugs, in that order |
| ScrapeEnrich.SearchParamFillsTemplate | scrapegoat/app/enrichment/scraper_enrichment.py:381-396 | a "{key}" placeholder of a URL template is filled with the URL-encoded value of that search parameter |
| ScrapeEnrich.SlugParamsNeedNoEncoding | scrapegoat/app/enrichment/scraper_enrichment.py:390-391 | a lower-case slug is left unchanged by URL encoding |
| ScraperEnrichment.SlugBase | scrapegoat/app/enrichment/scraper_enrichment.py:37-41 | the cleaned slug holds only word characters and hyphens, never two hyphens in a row, and no hyphen at either end |
| ScraperEnrichment.Slugify | scrapegoat/app/enrichment/scraper_enrichment.py:33-42 | the slug has the slug shape, has no upper-case letter when lowercase is requested, and is empty for empty text |
| ScraperEnrichment.Capitalize | scrapegoat/app/enrichment/scraper_enrichment.py:55 | a capitalised word keeps its length, starts with a non-lower-case character and has no upper-case letter after it |
| ScraperEnrichment.TitleizeLowersToSlug | scrapegoat/app/enrichment/scraper_enrichment.py:45-55 | lower-casing the title-case slug gives exactly the lower-case slug of the same text |
| ScraperEnrichment.TitleizeCapitalisesParts | scrapegoat/app/enrichment/scraper_enrichment.py:45-55 | every hyphen-separated part of the title-case slug starts with a non-lower-case character and is lower case after it |
| ScraperEnrichment.NormalizePhone | scrapegoat/app/enrichment/scraper_enrichment.py:530-554 | the result is empty or starts with '+'; without a leading '+' it is empty or +1 and ten digits, and it is +1 and ten digits whenever there are ten or more digits; with fewer than ten digits it is empty or the input unchanged |
| ScraperEnrichment.PlausiblePhoneNormalizes | scrapegoat/app/enrichment/scraper_enrichment.py:538-544 | a phone the validator accepts normalises to +1 and its last ten digits |
| ScraperEnrichment.NormalizePhoneIdempotent | scrapegoat/app/enrichment/scraper_enrichment.py:530-554 | normalising a normalised phone changes nothing |
| ScraperEnrichment.NormalizeIncome | scrapegoat/app/enrichment/scraper_enrichment.py:557-580 | an empty income stays empty; otherwise the result is a "$" amount or the cleaned text |
| ScraperEnrichment.ReadIncome | scrapegoat/app/enrichment/scraper_enrichment.py:575-580 | a number is reformatted as a "$" amount; anything else is returned unchanged |
| ScraperEnrichment.ReadScientific | scrapegoat/app/enrichment/scraper_enrichment.py:575-578 | an income in scientific notation, digits e digits, is read by float and formatted as the "$" amount of the whole number it writes |
| ScraperEnrichment.CleanIncomeHasNoSymbols | scrapegoat/app/enrichment/scraper_enrichment.py:565 | the cleaned income holds no '$' and no ',' |
| ScraperEnrichment.IncomeInThousands | scrapegoat/app/enrichment/scraper_enrichment.py:567-571 | "<n>k" normalises to the "$" amount of n * 1000 with thousands separators |
| ScraperEnrichment.ReadDigits | scrapegoat/app/enrichment/scraper_enrichment.py:575-578 | a string of digits is read as its number and written with thousands separators |
| ScraperEnrichment.IncomeFormatFixpoint | scrapegoat/app/enrichment/scraper_enrichment.py:557-580 | a formatted "$" amount normalises to itself |
| ScraperEnrichment.StepInto | scrapegoat/app/enrichment/scraper_enrichment.py:284-299 | a step succeeds only on a dictionary holding the key and, for an index step, on a list with the index in range |
| ScraperEnrichment.JsonPathValue | scrapegoat/app/enrichment/scraper_enrichment.py:272-303 | a path not starting with "$." gives None |
| ScraperEnrichment.ExtractByJsonPath | scrapegoat/app/enrichment/scraper_enrichment.py:272-303 | the loop over the path parts computes the path's value |
| ScraperEnrichment.ParseRenderStep | scrapegoat/app/enrichment/scraper_enrichment.py:284-286 | a written key or key[index] part parses back to the same step |
| ScraperEnrichment.WalkNest | scrapegoat/app/enrichment/scraper_enrichment.py:283-299 | walking the written path through a value nested along that path reaches the value |
| ScraperEnrichment.JsonPathRoundTrip | scrapegoat/app/enrichment/scraper_enrichment.py:272-303 | "$." followed by the written path extracts the text of the nested non-null value |
| ScraperEnrichment.MissingKeyFails | scrapegoat/app/enrichment/scraper_enrichment.py:296-299 | a key missing from the current value ends the walk with None |
| ScraperEnrichment.QuotePlus | scrapegoat/app/enrichment/scraper_enrichment.py:240 | the encoded value holds only unreserved characters, '+', '%' and hex digits, and text of unreserved characters is left as is |
| ScraperEnrichment.BuildUrl | scrapegoat/app/enrichment/scraper_enrichment.py:235-242 | the loop replaces every placeholder of every parameter in turn |
| ScraperEnrichment.BuildUrlFillsPlaceholder | scrapegoat/app/enrichment/scraper_enrichment.py:235-242 | a "{key}" placeholder in the target URL is replaced by the URL-encoded text of that parameter's value, and the rest of the URL is kept |
| ScraperEnrichment.NoPlaceholderLeft | scrapegoat/app/enrichment/scraper_enrichment.py:235-242 | a URL without '{' is not changed by any parameters |
| ScraperEnrichment.BuildParams | scrapegoat/app/enrichment/scraper_enrichment.py:244-247 | the query keeps exactly the parameters whose key is listed in dynamicParams |
| ScraperEnrichment.ParamMap | scrapegoat/app/enrichment/scraper_enrichment.py:251-252 | the parameter dictionary has exactly the parameters' keys |
| ScraperEnrichment.MergeSettledIdentity | scrapegoat/app/enrichment/scraper_enrichment.py:258-270 | a body with no placeholder naming a parameter is left unchanged |
| ScraperEnrichment.MergeSettles | scrapegoat/app/enrichment/scraper_enrichment.py:258-270 | when no parameter value is itself a placeholder, the merged body has no placeholder left |
| ScraperEnrichment.MergeIdempotent | scrapegoat/app/enrichment/scraper_enrichment.py:258-270 | merging twice gives the same body as merging once |
| ScraperEnrichment.MergeNoParams | scrapegoat/app/enrichment/scraper_enrichment.py:258-270 | merging no parameters leaves the body unchanged |
| ScraperEnrichment.MergeFillsPlaceholder | scrapegoat/app/enrichment/scraper_enrichment.py:262-265 | a field holding "{p}" for a known parameter p gets that parameter's value |
| ScraperEnrichment.BuildBody | scrapegoat/app/enrichment/scraper_enrichment.py:249-256 | a falsy body template gives the parameters themselves; a dictionary template keeps its keys |
| IdentityResolution.FirstStart | scrapegoat/app/enrichment/identity_resolution.py:23 | the leftmost position where a suffix pattern matches to the end, with no match before it, or None when it matches nowhere |
| IdentityResolution.SubAtEnd | scrapegoat/app/enrichment/identity_resolution.py:23 | removing an end-anchored pattern cuts the text at its leftmost match and keeps a final newline; without a match the text is unchanged |
| IdentityResolution.RemoveSuffixes | scrapegoat/app/enrichment/identity_resolution.py:22-23 | removing the suffix patterns in turn never lengthens the name |
| IdentityResolution.CleanName | scrapegoat/app/enrichment/identity_resolution.py:9-28 | a cleaned name is empty for an empty name, and is always single-spaced with no space at either end |
| IdentityResolution.JoinWordsSingleSpaced | scrapegoat/app/enrichment/identity_resolution.py:26 | joining non-empty space-free words with single spaces gives single-spaced text |
| IdentityResolution.ParseName | scrapegoat/app/enrichment/identity_resolution.py:31-55 | no words give ("", ""), one word gives (word, ""), and two or more give the first word and the rest joined by single spaces |
| IdentityResolution.WordsOfStrip | scrapegoat/app/enrichment/identity_resolution.py:44 | stripping does not change the words of a name |
| IdentityResolution.ParseNameRejoins | scrapegoat/app/enrichment/identity_resolution.py:50-55 | for two or more words, first name, a space and last name rejoin to the single-spaced name |
| IdentityResolution.NormalizeState | scrapegoat/app/enrichment/identity_resolution.py:142-167 | two capitals are kept as they are; anything else is looked up by its lower-case stripped form, defaulting to its first two upper-cased characters, or itself when shorter than two |
| IdentityResolution.NormalizeStateShort | scrapegoat/app/enrichment/identity_resolution.py:167 | an unknown state name is cut to its first two characters in upper case, or kept when shorter |
| IdentityResolution.StateNameAnyCase | scrapegoat/app/enrichment/identity_resolution.py:160-167 | a full state name in capitals, padded with spaces, normalises to its two-letter abbreviation |
| IdentityResolution.FirstZip | scrapegoat/app/enrichment/identity_resolution.py:116-117 | the zip code found is empty or exactly five digits |
| IdentityResolution.FirstZipIsFirst | scrapegoat/app/enrichment/identity_resolution.py:116-117 | the zip code found is the leftmost five-digit word, and none means there is none |
| IdentityResolution.RemoveZips | scrapegoat/app/enrichment/identity_resolution.py:120 | removing the zip codes never lengthens the text |
| IdentityResolution.NoDigitsNoZip | scrapegoat/app/enrichment/identity_resolution.py:116-120 | text without digits has no zip code and is left unchanged |
| IdentityResolution.FirstCapitalPair | scrapegoat/app/enrichment/identity_resolution.py:133-135 | a state found in a single part is two capital letters |
| IdentityResolution.ParseLocation | scrapegoat/app/enrichment/identity_resolution.py:100-140 | an empty location gives three empty fields; otherwise the zip code is the first five-digit word after removing ", United States", and with two or more comma parts the city is the first part stripped and the state is the second part normalised |
| IdentityResolution.ParseCityState | scrapegoat/app/enrichment/identity_resolution.py:100-130 | "city, state" without digits or commas inside parses to the city, the normalised state and no zip code |
| IdentityResolution.RawName | scrapegoat/app/enrichment/identity_resolution.py:68-73 | the first truthy name field is used when it is a string; with none, first and last name are joined and stripped |
| IdentityResolution.ResolveIdentity | scrapegoat/app/enrichment/identity_resolution.py:57-98 | an identity is built exactly when a name can be read and the location is falsy or a string; the full name is the cleaned name, first and last name are its parse, and platform defaults to "linkedin" |
| IdentityResolution.NameFieldFirst | scrapegoat/app/enrichment/identity_resolution.py:68-71 | a non-empty "name" field wins over every other name field |
| IdentityResolution.FullNameSecond | scrapegoat/app/enrichment/identity_resolution.py:68-71 | without a name, a non-empty "fullName" is used |
| IdentityResolution.FirstLastFallback | scrapegoat/app/enrichment/identity_resolution.py:72-73 | without any full-name field, first and last name are joined by a space and stripped |
| IdentityResolution.GetOr | scrapegoat/app/enrichment/identity_resolution.py:80 | a dictionary lookup gives the stored value, or the default when the key is absent |
| SkipTracing.PhoneField | scrapegoat/app/enrichment/skip_tracing.py:255-257 | the phone value read is truthy exactly when one of the phone keys holds a truthy value |
| SkipTracing.PhoneOfString | scrapegoat/app/enrichment/skip_tracing.py:261-271 | a string phone gives a number starting with '+'; one with a leading '+' always gives one; otherwise one is given exactly when there are ten or more digits, and its digits are the phone's, with a 1 in front unless it had eleven starting with 1 |
| SkipTracing.ExtractPhone | scrapegoat/app/enrichment/skip_tracing.py:251-282 | any phone found is non-empty and starts with '+' |
| SkipTracing.PhoneFieldPriority | scrapegoat/app/enrichment/skip_tracing.py:255-271 | the first phone key holding a non-empty string decides the phone |
| SkipTracing.StringPhoneEndsSearch | scrapegoat/app/enrichment/skip_tracing.py:259-271 | a string phone that cannot be normalised gives None without searching "contact" or "result" |
| SkipTracing.NestedSearchOrder | scrapegoat/app/enrichment/skip_tracing.py:274-282 | without a string phone the search goes into "contact", else into "result", else gives None |
| SkipTracing.ListHeadOnly | scrapegoat/app/enrichment/skip_tracing.py:279-280 | for a non-empty list only the first element is searched, for phone and for email |
| SkipTracing.KeepsAllDigits | scrapegoat/app/enrichment/skip_tracing.py:270-271 | with twelve or more digits the response phone keeps all of them after +1, unlike the scraper's normalisation, which keeps the last ten |
| SkipTracing.ExtractEmail | scrapegoat/app/enrichment/skip_tracing.py:284-302 | any email found contains '@' |
| SkipTracing.EmailWithoutAtFallsThrough | scrapegoat/app/enrichment/skip_tracing.py:287-295 | an email value without '@' is skipped and the search goes on into "contact" |
| SkipTracing.EmailFieldShown | scrapegoat/app/enrichment/skip_tracing.py:287-291 | a truthy email field whose str() text holds '@' is returned as that text, whatever its type |
| SkipTracing.ListEmailIsShown | scrapegoat/app/enrichment/skip_tracing.py:287-291 | an email given as a one-element list of a plain string holding '@' is returned as str() shows the list: "['" + e + "']", as {"email": ["a@b.com"]} gives "['a@b.com']" |
| SkipTracing.ContactResult | scrapegoat/app/enrichment/skip_tracing.py:200-209 | the result holds "phone" exactly when a phone was found and "email" exactly when an email was found, with those values, and nothing else |
| SkipTracing.ByEmail | scrapegoat/app/enrichment/skip_tracing.py:135-164 | the email lookup gives nothing, or just a truthy phone |
| SkipTracing.AddressParts | scrapegoat/app/enrichment/skip_tracing.py:170-176 | only truthy city, state and zip code go into the address |
| SkipTracing.Address | scrapegoat/app/enrichment/skip_tracing.py:170-178 | the joined address is empty exactly when there are no address parts |
| SkipTracing.AddressOfAllThree | scrapegoat/app/enrichment/skip_tracing.py:170-178 | city, state and zip code are joined by ", " |
| SkipTracing.AddressWithoutState | scrapegoat/app/enrichment/skip_tracing.py:170-178 | a missing state is left out of the joined address |
| SkipTracing.ByNameAddress | scrapegoat/app/enrichment/skip_tracing.py:166-217 | without a name or an address nothing is returned; a successful primary request gives its phone and email; the result holds at most phone and email |
| SkipTracing.FreeLookup | scrapegoat/app/enrichment/skip_tracing.py:74-133 | the free lookup answers only with name and place known and a spider result, and then with exactly phone, age and address |
| SkipTracing.SkipTrace | scrapegoat/app/enrichment/skip_tracing.py:19-71 | a free lookup with a phone is returned as is; otherwise without an API key nothing is returned, and the paid result holds at most phone and email |
| SkipTracing.FreeFirst | scrapegoat/app/enrichment/skip_tracing.py:34-40 | once the free lookup finds a phone, the API key and the paid APIs do not matter |
| SkipTracing.SpiderNeedsNameAndPlace | scrapegoat/app/enrichment/skip_tracing.py:34 | without first name, last name, city and state the spider's answer does not matter |
| SkipTracing.EmailLookupWins | scrapegoat/app/enrichment/skip_tracing.py:57-63 | when the email lookup finds a phone, the result is that phone with the identity's email |
| SelectorDiscovery.AcceptRules | scrapegoat/app/enrichment/selector_discovery.py:81-92 | a blank value is never accepted, and a field other than phone, email, name or age is accepted exactly when its value is a reasonable string |
| SelectorDiscovery.Confidence | scrapegoat/app/enrichment/selector_discovery.py:95-106 | the confidence lies in [0.5, 1.0], is at least 0.6 for an accepted value, and is 1.0 for an itemprop selector naming the field |
| SelectorDiscovery.Reading | scrapegoat/app/enrichment/selector_discovery.py:134-153 | a text pattern reads the element's text as "sel::text"; an attribute pattern reads that attribute as "sel::attr(name)"; an href pattern is written "sel::attr(href)" |
| SelectorDiscovery.Try | scrapegoat/app/enrichment/selector_discovery.py:128-156 | a pattern succeeds only when its selector is non-empty and selects an element whose reading is accepted, and then gives the written selector and its confidence |
| SelectorDiscovery.FirstAccepted | scrapegoat/app/enrichment/selector_discovery.py:127-157 | the confidence kept for a field lies in [0.6, 1.0] |
| SelectorDiscovery.FirstAcceptedIsFirst | scrapegoat/app/enrichment/selector_discovery.py:127-157 | the field's result is that of its first pattern that succeeds, and every earlier pattern fails |
| SelectorDiscovery.NoneAccepted | scrapegoat/app/enrichment/selector_discovery.py:127-157 | when no pattern succeeds the field is left out |
| SelectorDiscovery.DiscoverFields | scrapegoat/app/enrichment/selector_discovery.py:126-159 | the extraction and the confidences cover the same fields, all of them listed fields, with confidences in [0.6, 1.0] |
| SelectorDiscovery.Discovery | scrapegoat/app/enrichment/selector_discovery.py:109-159 | without a parser or for a page under 100 stripped characters nothing is discovered |
| SelectorDiscovery.DiscoverLoop | scrapegoat/app/enrichment/selector_discovery.py:126-159 | the nested loops with break compute the discovered fields |
| SelectorDiscovery.Discover | scrapegoat/app/enrichment/selector_discovery.py:109-159 | the method computes the discovery of the page |
| SelectorDiscovery.TotalBounds | scrapegoat/app/enrichment/selector_discovery.py:166-167 | a sum of n values in [lo, hi] lies between n * lo and n * hi |
| SelectorDiscovery.OverallConfidence | scrapegoat/app/enrichment/selector_discovery.py:162-170 | no confidences give 0.0; the result is at most 1.0, at least 0.55 with a phone or an email, and otherwise the mean capped at 1.0 |
| SelectorDiscovery.OverallConfidenceBounds | scrapegoat/app/enrichment/selector_discovery.py:162-170 | with per-field confidences in [0.6, 1.0] the overall confidence lies in [0.6, 1.0] |
| SelectorDiscovery.ComputeOverallConfidence | scrapegoat/app/enrichment/selector_discovery.py:162-170 | the summing loop computes the overall confidence |
| SelectorDiscovery.DiscoveredConfidence | scrapegoat/app/enrichment/selector_discovery.py:109-170 | whenever discovery finds a field, its overall confidence lies in [0.6, 1.0] |
| SelectorDiscovery.TextSelectorReadsBack | scrapegoat/app/enrichment/selector_discovery.py:137-139 | a written "sel::text" is read by the extractor as the text of sel |
| SelectorDiscovery.AttrSelectorReadsBack | scrapegoat/app/enrichment/selector_discovery.py:147-150 | a written "sel::attr(name)" is read by the corrected extractor as that attribute of sel |
| SelectorDiscovery.DataPhoneSelector | scrapegoat/app/enrichment/selector_discovery.py:34 | the discovered "[data-phone]::attr(data-phone)" is not read as an attribute by the extractor as written, and is by the corrected one |
| AutoMap.PlausibilityOf | scrapegoat/app/enrichment/auto_map.py:59-90 | without an OpenAI key, or when the call fails, the verdict is UNKNOWN; any other verdict needs a key and a reply |
| AutoMap.ExactReplies | scrapegoat/app/enrichment/auto_map.py:80-87 | the one-word replies PLAUSIBLE, GARBAGE and EMPTY, in any case and padding, give those verdicts |
| AutoMap.PlausibleBeforeGarbage | scrapegoat/app/enrichment/auto_map.py:81-84 | a reply containing PLAUSIBLE is read as PLAUSIBLE even if it also contains GARBAGE |
| AutoMap.PageUrl | scrapegoat/app/enrichment/auto_map.py:103 | the page is the given target URL, or "https://" and the domain when none is given |
| AutoMap.Truncate | scrapegoat/app/enrichment/auto_map.py:54 | the fetched page is cut to its first 500000 characters |
| AutoMap.FetchPage | scrapegoat/app/enrichment/auto_map.py:104-112 | the page is fetched without a browser first, and with a browser only when that fails |
| AutoMap.DraftBlueprintFields | scrapegoat/app/enrichment/auto_map.py:131-132 | the draft blueprint holds the discovered extraction and the site's URL template, or the page URL when it has none |
| AutoMap.RateKeyDiffers | scrapegoat/app/enrichment/auto_map.py:18-21 | the rate-limit key never collides with the blueprint, pending, active or need-mapping keys |
| AutoMap.OutcomeOf | scrapegoat/app/enrichment/auto_map.py:150-169 | every decision sets the rate-limit key; a commit ends committed or commit_error; keeping a draft gives pending with the blueprint; committed and pending are never both set and each matches its status |
| AutoMap.FoundDecision | scrapegoat/app/enrichment/auto_map.py:125-169 | once selectors are found the only stopping status is no_selectors, so "rejected" is never reached |
| AutoMap.DecideStops | scrapegoat/app/enrichment/auto_map.py:114-128 | a fetched page stops the attempt only as empty_html, captcha or no_selectors |
| AutoMap.RateLimitedWritesNothing | scrapegoat/app/enrichment/auto_map.py:98-101 | a domain tried within the hour is answered rate_limited and the store is left unchanged |
| AutoMap.AttemptAutoMap | scrapegoat/app/enrichment/auto_map.py:93-169 | a rate-limited domain leaves the store as it was; every other attempt, a failed fetch included, sets the domain's rate key to "1" |
| AutoMap.AttemptMarksDomain | scrapegoat/app/enrichment/auto_map.py:103-169 | any attempt that is not rate limited marks the domain as tried and never ends rate_limited or rejected |
| AutoMap.CommittedOrPending | scrapegoat/app/enrichment/auto_map.py:93-169 | an attempt never reports both committed and pending, and each flag is set exactly with its status |
| AutoMap.ShortPageIsEmpty | scrapegoat/app/enrichment/auto_map.py:114-116 | a page under 500 characters gives empty_html |
| AutoMap.BlockPageIsCaptcha | scrapegoat/app/enrichment/auto_map.py:118-123 | a page under 50000 characters with a CAPTCHA word gives captcha |
| AutoMap.JudgeThresholds | scrapegoat/app/enrichment/auto_map.py:150-169 | the draft is committed exactly when confidence >= 0.8, a field has a plausible format and the verdict is not GARBAGE; otherwise it is kept pending exactly when confidence >= 0.5, and rejected below that |
| AutoMap.UsablePageDecides | scrapegoat/app/enrichment/auto_map.py:125-169 | on a usable page the result and the store are those of the decision on the discovered selectors |
| AutoMap.CommitThreshold | scrapegoat/app/enrichment/auto_map.py:130-166 | with selectors found, the draft is committed exactly when the commit conditions hold and is otherwise kept pending |
| AutoMap.CommittedIsActive | scrapegoat/app/enrichment/auto_map.py:150-154 | after a successful commit the blueprint is returned and stored with all its fields, the domain is active, and no pending draft or need-mapping mark is left |
| AutoMap.CommitErrorIsFileWrite | scrapegoat/app/enrichment/auto_map.py:155-158 | commit_error arises only from a failed blueprint file write |
| AutoMap.PendingStoresDraft | scrapegoat/app/enrichment/auto_map.py:160-166 | a pending draft is stored as JSON under the pending key and the stored blueprint is untouched |
| AutoMap.DecideOnPage | scrapegoat/app/enrichment/auto_map.py:114-148 | the method computes the decision for the fetched page |
| AutoMap.AttemptOnStore | scrapegoat/app/enrichment/auto_map.py:93-169 | the store after the attempt and the returned result are those of the attempt specification |
| AutoMap.CarryOut | scrapegoat/app/enrichment/auto_map.py:150-169 | the store and the result are those of carrying out the decision |
| BlueprintCommit.ExtractionOrder | scrapegoat/app/enrichment/blueprint_commit.py:23 | the extraction is "extraction" when truthy, else "extractionPaths" when truthy, else the empty dictionary |
| BlueprintCommit.SelectorOrder | scrapegoat/app/enrichment/blueprint_commit.py:25-32 | name_selector, result_selector and url each take the first truthy candidate in the source's order, as text, or "" when none is truthy |
| BlueprintCommit.Mapping | scrapegoat/app/enrichment/blueprint_commit.py:27-34 | the hash written has exactly the six fields data, updated_at, name_selector, result_selector, url and extraction |
| BlueprintCommit.FinishIsCommands | scrapegoat/app/enrichment/blueprint_commit.py:64-67 | setting the active key, deleting the pending key and removing the domain from the need-mapping set give the finishing state |
| BlueprintCommit.Commit | scrapegoat/app/enrichment/blueprint_commit.py:17-69 | the commit fails before writing anything (store unchanged) exactly when the extraction is not a dictionary and one of name_selector and result_selector is falsy, so that ext.get is reached; it fails at the file write exactly when the selectors were readable and the file cannot be written |
| BlueprintCommit.KeysDiffer | scrapegoat/app/enrichment/blueprint_commit.py:35-67 | the blueprint, pending, active and need-mapping keys of a domain are pairwise distinct |
| BlueprintCommit.FinishKeepsHash | scrapegoat/app/enrichment/blueprint_commit.py:64-67 | finishing a commit leaves every stored blueprint hash as it was |
| BlueprintCommit.CommitWritesSixFields | scrapegoat/app/enrichment/blueprint_commit.py:23-36 | whenever the selectors can be read, the stored hash gains the six fields with the derived selectors, URL, time and the JSON text of the extraction, and keeps its other fields, such as coordinate-drift keys, untouched |
| BlueprintCommit.SelectorsSetSkipExtraction | scrapegoat/app/enrichment/blueprint_commit.py:23-26 | a blueprint with both selectors truthy commits whatever its extraction is (a list included), stores its own selectors as text and the extraction as JSON text |
| BlueprintCommit.CommitClearsNeedsMapping | scrapegoat/app/enrichment/blueprint_commit.py:64-69 | after a commit there is no pending draft, the domain is out of the need-mapping set and marked active |
| BlueprintCommit.NameSelectorIgnoresName | scrapegoat/app/enrichment/blueprint_commit.py:25 | an extraction "name" field is never used as name_selector |
| BlueprintCommit.NoneResultSelectorIsEmpty | scrapegoat/app/enrichment/blueprint_commit.py:26 | a result_selector of None gives "" rather than "None" |
| BlueprintCommit.CommitIdempotent | scrapegoat/app/enrichment/blueprint_commit.py:17-69 | committing the same blueprint twice leaves the store as one commit at the later time does |
| BlueprintCommit.CommitBlueprint | scrapegoat/app/enrichment/blueprint_commit.py:17-69 | the store commands leave the store in the state the commit specification gives, with its status |
| SeedMagazine.StarterExtraction | scrapegoat/scripts/seed_magazine_blueprints.py:24-31 | every starter blueprint's extraction is the empty dictionary, so committing it cannot fail on the extraction |
| SeedMagazine.StarterFields | scrapegoat/scripts/seed_magazine_blueprints.py:24-31 | a starter blueprint commits with its target URL, its name selector, and its result selector or "" for None |
| SeedMagazine.MagazineWellFormed | scrapegoat/scripts/seed_magazine_blueprints.py:24-31 | the list has six entries with distinct, colon-free domains and dictionary extractions |
| SeedMagazine.MagazineDistinct | scrapegoat/scripts/seed_magazine_blueprints.py:24-31 | the six domains are pairwise distinct |
| SeedMagazine.SeedAll | scrapegoat/scripts/seed_magazine_blueprints.py:37-39 | the number of domains seeded is at most the number of entries |
| SeedMagazine.SeedAllAdvance | scrapegoat/scripts/seed_magazine_blueprints.py:37-38 | a successful commit counts one and the run continues from the store it leaves |
| SeedMagazine.SeedAllHalts | scrapegoat/scripts/seed_magazine_blueprints.py:37-38 | a failed commit stops the run with the store that commit left |
| SeedMagazine.SeedAllSeedsEvery | scrapegoat/scripts/seed_magazine_blueprints.py:34-40 | when every file write succeeds and every extraction is a dictionary, every entry is seeded |
| SeedMagazine.SeedAllStopsAtFailure | scrapegoat/scripts/seed_magazine_blueprints.py:37-38 | the run seeds exactly the entries before the first whose file cannot be written |
| SeedMagazine.EntryCommitsCommute | scrapegoat/app/enrichment/blueprint_commit.py:17-69 | committing two entries with different colon-free domains gives the same store in either order |
| SeedMagazine.SeedAllIdempotent | scrapegoat/scripts/seed_magazine_blueprints.py:4 | seeding twice leaves the store as seeding once at the later time |
| SeedMagazine.LandsOnCommit | scrapegoat/app/enrichment/blueprint_commit.py:35-67 | after committing an entry its blueprint hash, active mark and cleared pending and need-mapping entries are in place |
| SeedMagazine.LandedKept | scrapegoat/app/enrichment/blueprint_commit.py:35-67 | committing another domain leaves a landed entry landed |
| SeedMagazine.SeedAllLands | scrapegoat/scripts/seed_magazine_blueprints.py:37-38 | after a run with writable files every entry of the list has landed |
| SeedMagazine.Seed | scrapegoat/scripts/seed_magazine_blueprints.py:37-40 | the loop returns the count and leaves the store the seeding specification gives |
| SeedMagazine.SeedMagazine | scrapegoat/scripts/seed_magazine_blueprints.py:34-40 | seeding the six magazine domains counts and stores as the specification gives |
| Database.IntOf | scrapegoat/app/enrichment/database.py:37 | int() of an integer is itself, and of None, a list or a dictionary raises |
| Database.IncomeConfidenceValues | scrapegoat/app/enrichment/database.py:18-29 | the income confidence is 0.3 or 1.0, 0.3 exactly when the income is implausible for the title, and 1.0 for a falsy or unreadable income |
| Database.IncomeInThousands | scrapegoat/app/enrichment/database.py:24-28 | "$<d>k" is read as d followed by "000", and is flagged exactly for a junior, associate or intern title when d * 1000 exceeds 100000 |
| Database.IncomeRead | scrapegoat/app/enrichment/database.py:22-29 | a readable income with a text title gets 0.3 exactly when the title is junior and the value exceeds 100000 |
| Database.IncomeWholeNumber | scrapegoat/app/enrichment/database.py:24-28 | a whole-number income n is read as n and flagged exactly for a junior title when n exceeds 100000 |
| Database.AgeConfidenceValues | scrapegoat/app/enrichment/database.py:32-42 | the age confidence is 0.6 or 1.0, 0.6 exactly when the age is implausible for the title, and 1.0 with no age or no title |
| Database.AgeFromText | scrapegoat/app/enrichment/database.py:37 | an age given as digits is judged like the same whole number |
| Database.RetireeTitle | scrapegoat/app/enrichment/database.py:40-42 | a title mentioning "retir" in any case never lowers the age confidence |
| Database.NeedsVlmIffLowered | scrapegoat/app/enrichment/database.py:81-83 | a lead needs a VLM check exactly when its age or its income confidence was lowered |
| Database.GetOr | scrapegoat/app/enrichment/database.py:76-77 | a lookup gives the stored value, or the default when the key is absent |
| Database.SourcesOfLead | scrapegoat/app/enrichment/database.py:84-88 | sources name age exactly when there is an age and income exactly when there is an income, as "chimera" when the chimera field is set and "census" otherwise |
| Database.DirectValuesFirst | scrapegoat/app/enrichment/database.py:74-75 | the direct age and income fields win over the median and chimera fields |
| Database.SourceFollowsChimeraField | scrapegoat/app/enrichment/database.py:74-88 | a direct age of 45 with a chimera age of 50 is stored as 45 yet labelled "chimera" |
| Database.LeadRowFlags | scrapegoat/app/enrichment/database.py:78-89 | the row's needs_vlm_check and its two lowered confidences agree with the implausibility rules |
| Database.Coalesce | scrapegoat/app/enrichment/database.py:102-113 | COALESCE keeps the incoming value unless it is NULL, and the stored value otherwise |
| Database.UpsertFrame | scrapegoat/app/enrichment/database.py:92-120 | the upsert adds or updates only the lead's own row, and a new row is the incoming one |
| Database.UpsertMerges | scrapegoat/app/enrichment/database.py:100-114 | on conflict a non-NULL incoming phone, email, age or income replaces the stored one and NULL keeps it; name and created_at are kept; enriched_at and the confidences are the incoming ones |
| Database.UpsertIdempotent | scrapegoat/app/enrichment/database.py:92-120 | upserting the same row twice equals upserting it once |
| Database.SaveFailures | scrapegoat/app/enrichment/database.py:54-56 | without a database URL or when an age rule raises, saving reports False, and a failed save leaves the table unchanged |
| Database.Save | scrapegoat/app/enrichment/database.py:44-161 | without a database URL saving reports False; with one and no raising age rule, the save is reported exactly when the database takes the row's values for the declared column types; a save reported as failed leaves the table as it was; no stored lead is ever removed |
| Database.SaveWithoutUrl | scrapegoat/app/enrichment/database.py:132-134 | a lead without a LinkedIn URL whose values the columns take violates NOT NULL, which counts as success with the table unchanged |
| Database.SaveStoresLead | scrapegoat/app/enrichment/database.py:44-130 | a lead with a URL whose values the columns take is saved under it, other rows are kept, a new row gets the lead's name and the current time as created_at, an existing row keeps them, and a non-NULL phone is stored |
| Database.DeclaredFitHonoursColumns | scrapegoat/app/enrichment/database.py:139-161 | a database that checks exactly the declared column types (no dictionary parameter, VARCHAR widths, an INTEGER age) refuses every row those columns refuse |
| Database.SaveRefusesUnfitRow | scrapegoat/app/enrichment/database.py:135-161 | a row the declared columns refuse (a dictionary value, text over its VARCHAR width, an age the INTEGER column cannot read) is reported not saved and the table is unchanged |
| Database.SaveRefusesAgeText | scrapegoat/app/enrichment/database.py:75-161 | a lead with URL "u" and age "45 years" is reported not saved and nothing is stored, though its age confidence rule swallowed the same text |
| Database.SaveRefusesLongPhone | scrapegoat/app/enrichment/database.py:68-161 | a phone string longer than 20 characters whose excess is not all spaces makes the save report False with the table unchanged |
| PipelineTypes.StopConditionValuesDistinct | scrapegoat/app/pipeline/types.py:10-14 | the three stop conditions have pairwise distinct values |
| PipelineTypes.ErrorLines | scrapegoat/app/pipeline/types.py:67-68 | an error line is logged exactly when the error is non-empty |
| PipelineTypes.MergeDataWins | scrapegoat/app/pipeline/types.py:55-56 | merged data has the keys of both, the new values win, and other old values are kept |
| PipelineTypes.CostSumAppend | scrapegoat/app/pipeline/types.py:58-65 | appending a history entry adds its cost to the history's total |
| PipelineTypes.Ledger.AvailableFields | scrapegoat/app/pipeline/types.py:70-73 | the available fields are exactly the keys of the data |
| PipelineTypes.Ledger.RemainingBudget | scrapegoat/app/pipeline/types.py:75-78 | the remaining budget is the limit minus the spending, floored at zero |
| PipelineTypes.Fresh | scrapegoat/app/pipeline/types.py:25-35 | a fresh context has no history, cost or errors, so its total equals its history's cost |
| PipelineTypes.UpdateAccounts | scrapegoat/app/pipeline/types.py:37-68 | an update appends exactly one history entry for the station, adds its cost, adds one error line exactly for a non-empty error, keeps the limit, and keeps the total equal to the history's cost |
| PipelineTypes.AffordableWithinRemaining | scrapegoat/app/pipeline/types.py:75-82 | a positive estimate is affordable exactly when it is within the remaining budget |
| PipelineTypes.SpentBudget | scrapegoat/app/pipeline/types.py:75-82 | once spending reaches the limit nothing remains and no positive estimate is affordable |
| PipelineTypes.Context.constructor | scrapegoat/app/pipeline/types.py:17-35 | a new context holds the given data and limit and nothing else |
| PipelineTypes.Context.Update | scrapegoat/app/pipeline/types.py:37-68 | the context's fields change as the update specification gives |
| PipelineTypes.Context.LogError | scrapegoat/app/pipeline/types.py:34 | logging an error appends it and changes nothing else |
| PipelineEngine.Recent | scrapegoat/app/pipeline/engine.py:72 | the recent logs are the last 20 lines of the buffer, or all of it when shorter |
| PipelineEngine.StepForStatus | scrapegoat/app/pipeline/engine.py:58-77 | a step names its station; its status is "stop" exactly for SKIP_REMAINING and "ok" exactly for CONTINUE; it has an error exactly when the station raised; recent logs hold 1 to 20 lines |
| PipelineEngine.AfterAccounts | scrapegoat/app/pipeline/engine.py:54-79 | a station that raises adds an error and no history entry; one that returns adds a history entry; the limit and the cost balance are kept |
| PipelineEngine.RunUnfold | scrapegoat/app/pipeline/engine.py:51-79 | the loop runs the first station, records its step, and stops after SKIP_REMAINING or goes on with the rest of the route |
| PipelineEngine.RunSteps | scrapegoat/app/pipeline/engine.py:51-79 | the run appends at most one step per station, in route order, keeping earlier steps |
| PipelineEngine.RunAccounts | scrapegoat/app/pipeline/engine.py:51-79 | each raise adds one error; each other step adds one history entry; the limit is kept and total cost stays equal to the history's cost |
| PipelineEngine.RunStopsOnlyOnSkip | scrapegoat/app/pipeline/engine.py:63-65 | the route ends early only right after a "stop" step, and no earlier step is "stop" |
| PipelineEngine.FinalData | scrapegoat/app/pipeline/engine.py:87-92 | the final data is the context's data plus the cost, the number of stations executed and the number of errors |
| PipelineEngine.RunCost | scrapegoat/app/pipeline/engine.py:46-92 | the reported pipeline cost is the sum of the costs in the history |
| PipelineEngine.Run | scrapegoat/app/pipeline/engine.py:35-92 | the loop returns the final data of the route's run and, when collecting, its steps |
| PoisonValidator.NormVal | scrapegoat/app/pipeline/validator.py:49-51 | a falsy value normalises to the empty string and a string to its stripped, lower-cased form |
| PoisonValidator.NormValIdempotent | scrapegoat/app/pipeline/validator.py:49-51 | normalising a normalised string changes nothing |
| PoisonValidator.NormValIgnoresCaseAndPadding | scrapegoat/app/pipeline/validator.py:49-51 | normalisation ignores letter case and leading padding |
| PoisonValidator.HashOfNormalised | scrapegoat/app/pipeline/validator.py:54-55 | hashing a normalised value hashes that value unchanged |
| PoisonValidator.Blacklist | scrapegoat/app/pipeline/validator.py:72-77 | after blacklisting, the provider is blacklisted |
| PoisonValidator.BlacklistProvider | scrapegoat/app/pipeline/validator.py:72-89 | the store changes exactly as blacklisting specifies |
| PoisonValidator.IsProviderBlacklisted | scrapegoat/app/pipeline/validator.py:63-69 | the answer is whether the provider's blacklist key exists |
| PoisonValidator.RecordIgnores | scrapegoat/app/pipeline/validator.py:111-113 | an empty value, or a data type other than phone or email, records nothing and is not poison |
| PoisonValidator.RecordThreshold | scrapegoat/app/pipeline/validator.py:114-122 | the lead joins the value's set, and the value is poison exactly when the set then has more than 3 leads, in which case the provider is blacklisted |
| PoisonValidator.RecordTwice | scrapegoat/app/pipeline/validator.py:97-125 | recording the same lead again gives the same verdict |
| PoisonValidator.RecordDataPoint | scrapegoat/app/pipeline/validator.py:97-125 | the method raises exactly when the specification does, leaving the store unchanged, and otherwise returns its verdict and store |
| PoisonValidator.HighValueNeedsBoth | scrapegoat/app/pipeline/validator.py:133-137 | a high-value lead has a truthy company and a truthy title or headline |
| PoisonValidator.NormCompSymmetric | scrapegoat/app/pipeline/validator.py:140-151 | the comparison is symmetric and reflexive, and raises exactly when a side cannot be normalised |
| PoisonValidator.SameDigitsCompareEqual | scrapegoat/app/pipeline/validator.py:146-150 | two values with the same non-empty digits compare equal |
| PoisonValidator.AbsentFieldsAgree | scrapegoat/app/pipeline/validator.py:159-160 | a field absent from both results never makes them differ |
| PoisonValidator.DifferOnMeaning | scrapegoat/app/pipeline/validator.py:154-163 | the results differ exactly when some compared field disagrees |
| PoisonValidator.DifferOnSelf | scrapegoat/app/pipeline/validator.py:154-163 | a result never differs from itself on the fields compared |
| PoisonValidator.ResultsSelf | scrapegoat/app/pipeline/validator.py:154-163 | a result never differs significantly from itself |
| PoisonValidator.CrossSourceFlag | scrapegoat/app/pipeline/validator.py:166-173 | NEEDS_RECONCILIATION is returned exactly when phone, email or age disagree, and None exactly when none does |
| PoisonValidator.OlmocrFlag | scrapegoat/app/pipeline/validator.py:181-183 | a missing or zero confidence counts as 1.0 and does not trigger; any other confidence triggers exactly below 0.95 |
| PoisonValidator.OlmocrScientificText | scrapegoat/app/pipeline/validator.py:181-183 | a confidence written as text in scientific notation, digits e- digits, is read as that number and triggers exactly below 0.95 |
| PoisonValidator.VisionConfidence | scrapegoat/app/pipeline/validator.py:194 | vision_confidence is used first, then confidence, then 1.0 |
| PoisonValidator.ConsensusFlag | scrapegoat/app/pipeline/validator.py:186-197 | the result holds NEEDS_OLMOCR_VERIFICATION exactly when the confidence triggers, and is empty when no confidence is given |
| BlueprintLoader.ProviderOf | scrapegoat/app/pipeline/stations/blueprint_loader.py:72-82 | the provider is never empty |
| BlueprintLoader.ProviderDefaults | scrapegoat/app/pipeline/stations/blueprint_loader.py:72-82 | an unavailable router, a raising router, or no (or an empty) answer gives TruePeopleSearch; otherwise the router's answer is used |
| BlueprintLoader.NameDomain | scrapegoat/app/pipeline/stations/blueprint_loader.py:84 | the derived domain is the space-free name plus four characters, and those are `.com` |
| BlueprintLoader.DomainOf | scrapegoat/app/pipeline/stations/blueprint_loader.py:84 | a provider in the six-entry table gets the table's domain, any other one the derived domain |
| BlueprintLoader.NameDomainShape | scrapegoat/app/pipeline/stations/blueprint_loader.py:84 | a derived domain has no upper-case letter and no space |
| BlueprintLoader.FirstHash | scrapegoat/app/pipeline/stations/blueprint_loader.py:88-96 | `BLUEPRINT:{domain}` is used when non-empty, otherwise `blueprint:{domain}` |
| BlueprintLoader.DataStr | scrapegoat/app/pipeline/stations/blueprint_loader.py:99 | the data string is non-empty iff `data` or `blueprint_json` is non-empty, and a non-empty `data` wins |
| BlueprintLoader.FromHashOrder | scrapegoat/app/pipeline/stations/blueprint_loader.py:98-121 | an empty hash yields nothing; a parseable data string yields `_blueprint` and `_blueprint_domain`; an instructions blueprint is used only when the data string is missing or unparseable; nothing is yielded iff neither parses |
| BlueprintLoader.FromData | scrapegoat/app/pipeline/stations/blueprint_loader.py:133-141 | a re-read hash yields a blueprint iff it is non-empty and its data string is non-empty and parses |
| BlueprintLoader.FallbackOutcome | scrapegoat/app/pipeline/stations/blueprint_loader.py:123-156 | mapping is required iff the auto-map attempt committed no blueprint that could be reloaded; then the output is only `_mapping_required` and the domain is added to `dojo:domains_need_mapping`; otherwise the store is unchanged and the blueprint and domain are output |
| BlueprintLoader.ProcessOutcome | scrapegoat/app/pipeline/stations/blueprint_loader.py:98-156 | the output holds exactly one of `_blueprint` and `_mapping_required`; a stored blueprint leaves the store unchanged; a required mapping names the domain, which is then in the need-mapping set |
| BlueprintLoader.LoadStored | scrapegoat/app/pipeline/stations/blueprint_loader.py:87-121 | the two-prefix read loop with its early break yields what the first non-empty hash yields |
| BlueprintLoader.ReloadStored | scrapegoat/app/pipeline/stations/blueprint_loader.py:130-143 | the re-read loop yields the first prefix's parseable data string |
| BlueprintLoader.ProcessOnStore | scrapegoat/app/pipeline/stations/blueprint_loader.py:68-156 | `process` always returns CONTINUE, and leaves the store and output that `Process` gives, with auto-mapping run on the same store |
| Stations.BrainHttpUrl | scrapegoat/app/pipeline/stations/enrichment.py:44-51 | the result never ends in '/'; a set HTTP URL is used with only its trailing slashes removed; otherwise an address naming 50051 is used with 50051 replaced by 8080 and trailing slashes removed; otherwise the local default |
| Stations.BrainAddressMovesPort | scrapegoat/app/pipeline/stations/enrichment.py:48-50 | an address naming 50051 once keeps its host and path and moves to port 8080 |
| Stations.BrainOtherPortIsLocal | scrapegoat/app/pipeline/stations/enrichment.py:48-51 | an address without the digit 5, so not naming 50051, gives http://localhost:8080 |
| Stations.BrainHttpUrlWins | scrapegoat/app/pipeline/stations/enrichment.py:45-47 | a set HTTP URL wins over a 50051 address and loses its trailing slashes |
| Stations.WaitBounded | scrapegoat/app/pipeline/stations/enrichment.py:176-181 | the pause wait counts whole 15-second polls, never more than 120 seconds; it stops early only at a poll that found the flag cleared, and every earlier poll found it set |
| Stations.PauseWait | scrapegoat/app/pipeline/stations/enrichment.py:177-181 | the polling loop counts what `Waited` counts |
| Stations.ChimeraDomain | scrapegoat/app/pipeline/stations/enrichment.py:207-208 | the domain is the lower-cased, space-free name, with or without `.com`, and always contains a dot |
| Stations.ChimeraDomainShape | scrapegoat/app/pipeline/stations/enrichment.py:207-208 | `.com` is appended iff the name has no dot; the domain has no space and no capital |
| Stations.Judge | scrapegoat/app/pipeline/stations/enrichment.py:225-281 | a reply succeeds iff it arrived, parses to a dictionary, and that dictionary's status is not "failed"; a push error, a wait error, a timeout, a parse error or a non-dict all fail |
| Stations.PickedFields | scrapegoat/app/pipeline/stations/enrichment.py:298-301 | `chimera_k` is present iff k is in the result with a value other than None, and then it holds that value; no other key is produced |
| Stations.ChimeraFields | scrapegoat/app/pipeline/stations/enrichment.py:298-302 | the success output holds `chimera_raw` with the whole result, plus the picked fields |
| Stations.CrossCheckPushes | scrapegoat/app/pipeline/stations/enrichment.py:315-337 | the cross-source check pushes at most one mission, for a provider not tried yet |
| Stations.FlaggedOutcome | scrapegoat/app/pipeline/stations/enrichment.py:298-361 | after the poison counters, a success continues and keeps `chimera_raw`; the consensus and reconciliation flags never overwrite it |
| Stations.FinishOutcome | scrapegoat/app/pipeline/stations/enrichment.py:283-361 | a success that does not raise continues with the raw result in the output, and no mission is pushed twice |
| Stations.LoopOutcome | scrapegoat/app/pipeline/stations/enrichment.py:195-281 | the provider loop ends by continuing, either with empty output after every provider failed or with a result that arrived, parsed to a dictionary and was not marked failed; no provider's mission is pushed twice |
| Stations.Loop | scrapegoat/app/pipeline/stations/enrichment.py:195-281 | the provider loop never fails and never asks to skip: when it completes, it continues |
| Stations.ChimeraOutcome | scrapegoat/app/pipeline/stations/enrichment.py:167-205 | the station returns FAIL iff there is no LinkedIn URL, and it never returns SKIP_REMAINING; a missing URL or a pause that outlasts the wait pushes no mission and leaves the store unchanged |
| Stations.Chimera | scrapegoat/app/pipeline/stations/enrichment.py:167-205 | the station fails exactly when the lead has no LinkedIn URL, and then pushes no mission and leaves the store as it was |
| Stations.FinishOnStore | scrapegoat/app/pipeline/stations/enrichment.py:283-361 | the success path records the phone and then the email against poisoning on the store, as `Finish` states |
| Stations.FlaggedOutput | scrapegoat/app/pipeline/stations/enrichment.py:298-361 | the output of a success with its consensus and reconciliation flags, as `Flagged` states |
| Stations.ChimeraOnStore | scrapegoat/app/pipeline/stations/enrichment.py:167-363 | the provider loop adds each provider to `tried` before its mission, moves to the router's next pick after any failure, and ends as `Chimera` states |
| Stations.IdentityFields | scrapegoat/app/enrichment/identity_resolution.py:86-98 | the identity dictionary has exactly the eleven keys of `resolve_identity` |
| Stations.IdentityStation | scrapegoat/app/pipeline/stations/enrichment.py:110-125 | CONTINUE with the identity iff resolution does not raise and yields a non-empty first and last name; otherwise ({}, FAIL) |
| Stations.SkipTracingStation | scrapegoat/app/pipeline/stations/enrichment.py:428-449 | ({}, CONTINUE) when a phone is already known; otherwise CONTINUE with the skip-trace result iff it has a phone, and ({}, FAIL) if not |
| Stations.TelnyxStation | scrapegoat/app/pipeline/stations/enrichment.py:475-503 | ({}, FAIL) iff there is no phone; SKIP_REMAINING iff the validation says junk, VOIP, or a landline that is not mobile; a validator error gives ({}, CONTINUE) |
| Stations.MobilePasses | scrapegoat/app/pipeline/stations/enrichment.py:492-498 | a mobile number that is neither junk nor VOIP continues with its validation |
| Stations.DncStation | scrapegoat/app/pipeline/stations/enrichment.py:529-531 | always CONTINUE, with `dnc_status` and `can_contact` True |
| Stations.SaveStation | scrapegoat/app/pipeline/stations/enrichment.py:603-622 | `saved` reports the save's result, including the database's refusal of a row; a failed save gives FAIL; the table is the one the save leaves |
| QueueWorker.Delay | scrapegoat/app/workers/redis_queue_worker.py:233 | the retry delay is 5 * 2^(count-1) seconds and doubles with each further failure |
| QueueWorker.RetryDelays | scrapegoat/app/workers/redis_queue_worker.py:228-233 | below the limit of three the only delays are 5 s and 10 s |
| QueueWorker.ProcessLeadNeedsSave | scrapegoat/app/workers/redis_queue_worker.py:86-98 | a lead counts as processed exactly when the pipeline's context holds a truthy `saved`; the run's cost and counters cannot make it so |
| QueueWorker.RunIgnoresLogs | scrapegoat/app/pipeline/engine.py:35-40 | the context a run reaches does not depend on the log buffer or on the steps already collected |
| QueueWorker.ProcessWithStepsAsWritten | scrapegoat/app/workers/redis_queue_worker.py:115-123 | as written the call raises, so the result is always failure with no steps |
| QueueWorker.ProcessWithStepsAgrees | scrapegoat/app/workers/redis_queue_worker.py:115-120 | the corrected call reports the same success as `process_lead` and one step per station run, in route order, at least one when the route is not empty |
| QueueWorker.ProgressQueueFinding | scrapegoat/app/workers/redis_queue_worker.py:118 | for a one-station route that saves, the corrected call reports success with one step while the call as written reports failure with none |
| QueueWorker.LeadId | scrapegoat/app/workers/redis_queue_worker.py:217 | the retry key is `linkedinUrl` when truthy, else `name`, else "unknown" |
| QueueWorker.StepKeepsBounds | scrapegoat/app/workers/redis_queue_worker.py:222-239 | every iteration keeps each stored retry counter between 1 and MAX_RETRIES - 1 |
| QueueWorker.Step | scrapegoat/app/workers/redis_queue_worker.py:206-246 | an iteration keeps every retry counter within [1, MAX_RETRIES - 1]; a pop from an empty queue changes nothing and sleeps nothing |
| QueueWorker.Iterate | scrapegoat/app/workers/redis_queue_worker.py:204-246 | any number of iterations keep every retry counter within [1, MAX_RETRIES - 1] |
| QueueWorker.QueuesDiffer | scrapegoat/app/workers/redis_queue_worker.py:32-33 | the work queue and the dead-letter list are different keys |
| QueueWorker.StepIdle | scrapegoat/app/workers/redis_queue_worker.py:209-211 | a pop from an empty queue changes nothing and sleeps nothing |
| QueueWorker.StepMalformed | scrapegoat/app/workers/redis_queue_worker.py:214-246 | a payload that does not parse to a dictionary leaves the queue and goes to the head of `failed_leads`; the counters are untouched |
| QueueWorker.StepSuccess | scrapegoat/app/workers/redis_queue_worker.py:222-225 | a saved lead leaves the queue, its counter is forgotten and the dead-letter list is untouched |
| QueueWorker.StepRequeue | scrapegoat/app/workers/redis_queue_worker.py:226-239 | a failure below the limit stores the new count, sleeps 5 * 2^(count-1) s and puts the same JSON back at the head of the queue, so it is popped after every lead already waiting |
| QueueWorker.StepDeadLetter | scrapegoat/app/workers/redis_queue_worker.py:226-231 | the third failure pushes the JSON once to `failed_leads`, clears the counter and does not re-queue |
| QueueWorker.Worker.StepOnStore | scrapegoat/app/workers/redis_queue_worker.py:206-246 | one loop iteration against the store leaves the counters, the lists and the delay that `Step` describes |
| QueueWorker.Worker.FailOnStore | scrapegoat/app/workers/redis_queue_worker.py:226-239 | the failure branch leaves the counters and lists `Failed` describes |
| QueueWorker.Worker.ServeOnStore | scrapegoat/app/workers/redis_queue_worker.py:204-246 | the first n iterations reach the state `Iterate` describes and keep every counter within its bounds |
| QueueWorker.Worker.constructor | scrapegoat/app/workers/redis_queue_worker.py:204 | the worker starts with no retry counters |
| Redis.LRemFirstAt | scrapegoat/main.py:186 | `LREM key 1 v` removes exactly the element at the first position holding v |
| Redis.Store.LRangeAt | scrapegoat/main.py:165 | `LRANGE key i i` gives the one element at the Redis position of i, or nothing |
| Redis.Store.LSetAt | scrapegoat/main.py:185 | `LSET` overwrites the element at the position of i, and fails without change when i is out of range |
| Redis.Store.LRem | scrapegoat/main.py:186 | `LREM key 1 v` leaves the list with its first v removed |
| Api.ListsDiffer | scrapegoat/main.py:165-180 | the dead-letter list and the work queue are different keys |
| Api.DlqEntry | scrapegoat/main.py:132-148 | an entry is listed exactly when it does not parse or parses to an object; it carries its index and the five keys; an unparseable entry shows its raw text with "Failed to parse lead data", retry count 0 and "Unknown"; a parsed one shows its lead field or itself and its error, retry count and failure time with the source's defaults |
| Api.DlqEntries | scrapegoat/main.py:130-148 | the listing exists exactly when every entry is listable, and then entry i of the listing is entry i's listing with index i |
| Api.GetDlqOutcome | scrapegoat/main.py:124-158 | the listing shows the first limit entries (all for 0, all but the last -limit for a negative limit), numbered from 0, with total the length of the whole list; 503 exactly when a shown entry parses to a non-object |
| Api.ListEntries | scrapegoat/main.py:132-148 | the loop over the fetched entries computes the specified listing |
| Api.GetDlqOnStore | scrapegoat/main.py:124-158 | the endpoint answers as GetDlq on the store it reads, and changes nothing (it modifies no state) |
| Redis.LRangeOfHead | scrapegoat/main.py:129 | LRANGE 0 (limit-1) is the first limit elements, the whole list for limit 0, and all but the last -limit for a negative limit |
| Api.RetryOneNotFound | scrapegoat/main.py:165-168 | retrying an index outside the dead-letter list answers 404, only such an index does, and nothing changes |
| Api.RetryOne | scrapegoat/main.py:160-196 | a 404 or a 400 leaves the store as it was; a retry re-queues exactly one lead; every refusal is a 400, 404 or 500 |
| Api.RetryOneMalformed | scrapegoat/main.py:172-177 | an entry that does not parse answers 400 and changes nothing |
| Api.RetryOneRequeues | scrapegoat/main.py:175-192 | a parseable entry's original lead (its `lead` field, else the whole entry) goes to the head of `leads_to_enrich`; the dead-letter list loses one entry, exactly the retried one when no marker precedes it |
| Api.Payload | scrapegoat/main.py:215-222 | each dead-letter entry yields at most one payload |
| Api.RequeuedStep | scrapegoat/main.py:214-222 | the payloads of one more entry are those of the entries before it followed by its own |
| Api.Reversed | scrapegoat/main.py:218 | the reversal keeps the length and mirrors the positions |
| Api.PushedStep | scrapegoat/main.py:218 | pushing one more payload is one more LPUSH |
| Api.PushedLists | scrapegoat/main.py:214-218 | pushing payloads one by one leaves them at the head in reverse, so the first one pushed is popped first; no other list changes |
| Api.RequeuedCount | scrapegoat/main.py:212-222 | malformed entries are skipped: the count is at most the number of entries, and equal to it exactly when every entry parses to an object |
| Api.RetryAllOutcome | scrapegoat/main.py:203-231 | an empty dead-letter list answers 0 and changes nothing; otherwise the count is the number of payloads pushed, the work queue gains them in list order and the dead-letter list is deleted, malformed entries included |
| Api.RetryAll | scrapegoat/main.py:198-233 | the answer is always a count, never more than the length of the dead-letter list (entries that do not parse to a dictionary are dropped, not counted) |
| Api.RequeueEach | scrapegoat/main.py:212-222 | the loop pushes each parseable entry's lead in order and counts them |
| Api.RetryOneOnStore | scrapegoat/main.py:160-196 | the endpoint's answer and the store it leaves are those `RetryOne` describes |
| Api.RetryAllOnStore | scrapegoat/main.py:198-233 | the endpoint's answer and the store it leaves are those `RetryAll` describes |
| Api.NormalizeDomain | scrapegoat/main.py:735 | the blueprint's domain holds no '/' and is the scheme- and "www."-stripped text up to its first '/' |
| Api.StripBare | scrapegoat/main.py:735 | a host none of the three patterns occurs in is not changed by the stripping |
| Api.ReplaceLeading | scrapegoat/main.py:735 | a leading pattern is removed by the first step of the left-to-right pass |
| Api.HttpHasNoHttps | scrapegoat/main.py:735 | "http://" followed by a host without "https://" contains no "https://" |
| Api.NoHttpsBelow | scrapegoat/main.py:735 | no "https://" starts inside a leading "http://" |
| Api.NormalizeHost | scrapegoat/main.py:735 | a bare host, and the same host after "https://" or "http://", all normalise to the host |
| Api.SaveBlueprintAsWritten | scrapegoat/main.py:727-752 | as written every refusal, the missing domain included, is a 500 |
| Api.SaveBlueprint | scrapegoat/main.py:727-752 | a blueprint is reported saved only when the file write succeeded, under a domain without '/'; every refusal is a 400 or a 500 |
| Api.SaveBlueprintOutcome | scrapegoat/main.py:728-750 | a missing or empty domain is refused with 400 and only then; a saved blueprint is filed under a domain without '/' and is the request's `blueprint` field, else the whole request |
| Api.MissingDomainFinding | scrapegoat/main.py:731-752 | for a request without a domain the code as written answers 500 and the corrected endpoint 400 |
| Api.Spiders | scrapegoat/main.py:301-304 | the listing keeps exactly the files that are not `__init__.py` and do not start with '_' |
| Api.StrLeTotal | scrapegoat/main.py:330 | any two sort keys are comparable |
| Api.InsertSorted | scrapegoat/main.py:330 | inserting a file into a newest-first list keeps it newest first and adds exactly that file |
| Api.SortNewestFirstSorts | scrapegoat/main.py:330 | the sort yields a newest-first permutation of its input |
| Api.ListSpidersOutcome | scrapegoat/main.py:293-330 | the listing holds exactly the spider files, each as often as found, newest first by modification time (a missing time sorting as "") |
| CaptchaSolver.ApiKey | scrapegoat/app/scraping/captcha_solver.py:27-35 | the key in use is non-empty, so the solver is available, exactly when the given key or the environment's key is non-empty |
| CaptchaSolver.ProxyLessIffNoProxy | scrapegoat/app/scraping/captcha_solver.py:51-191 | for every task type, when the Cloudflare metadata sets neither type nor proxy, the type is the ProxyLess variant exactly when no proxy is given, and the payload carries a proxy entry exactly when one is |
| CaptchaSolver.TaskFields | scrapegoat/app/scraping/captcha_solver.py:51-191 | every task carries its type and the page URL as given; a websiteKey field for every type but the Cloudflare challenge and AWS WAF; pageAction exactly for reCAPTCHA v3, with the caller's value; a proxy entry exactly when a proxy is given; and no other field |
| CaptchaSolver.TaskPayload | scrapegoat/app/scraping/captcha_solver.py:146-166 | only the Cloudflare challenge task takes the caller's metadata: its keys are the task's own plus the metadata's, a metadata value overriding the field of the same name and every other field kept |
| CaptchaSolver.PollFromBounds | scrapegoat/app/scraping/captcha_solver.py:242-266 | polling from poll k makes between k and 60 polls in all, every poll but the last was still pending, and a value comes only from the last poll's "ready" reply |
| CaptchaSolver.PollFromTimeout | scrapegoat/app/scraping/captcha_solver.py:242-266 | when every reply is pending the solver raises the timeout after exactly 60 polls |
| CaptchaSolver.SolveTaskBounds | scrapegoat/app/scraping/captcha_solver.py:225-266 | a failed request, a non-zero errorId or a missing taskId raises before any poll, and only then are no polls made; at most 60 polls, 2 s apart, fit in the 120 s; a value is returned only from a "ready" reply |
| CaptchaSolver.SolveTask | scrapegoat/app/scraping/captcha_solver.py:207-266 | at most the polling limit of polls is made; a solution comes only after a task was created, from the last reply polled, which said ready |
| CaptchaSolver.SolveTaskLoop | scrapegoat/app/scraping/captcha_solver.py:207-266 | the polling loop over `elapsed` returns what `SolveTask` describes, with the number of polls it made |
| CaptchaSolver.NonQuoteRun | scrapegoat/app/scraping/captcha_solver.py:288 | the run `[^"']*` stays within the page and holds no quote |
| CaptchaSolver.QuotedAt | scrapegoat/app/scraping/captcha_solver.py:288 | a quoted match captures non-empty text without quotes and ends within the page |
| CaptchaSolver.V2Search | scrapegoat/app/scraping/captcha_solver.py:288-291 | a captured `data-sitekey` value holds no quote |
| CaptchaSolver.Key40Search | scrapegoat/app/scraping/captcha_solver.py:293-295 | the key found is exactly 40 characters from `[0-9A-Za-z_-]` |
| CaptchaSolver.RenderRun | scrapegoat/app/scraping/captcha_solver.py:299 | the `render=` value holds no quote, '&' or whitespace |
| CaptchaSolver.HSearch | scrapegoat/app/scraping/captcha_solver.py:305-308 | a captured hCaptcha site key holds no quote |
| CaptchaSolver.SpaceRun | scrapegoat/app/scraping/captcha_solver.py:314 | the `\s*` run stays within the page |
| CaptchaSolver.TurnstileKeySearch | scrapegoat/app/scraping/captcha_solver.py:314-315 | a captured Turnstile site key holds no quote |
| CaptchaSolver.V3Witness | scrapegoat/app/scraping/captcha_solver.py:299-301 | a v3 match starts with `recaptcha/api.js?render=` at some position |
| CaptchaSolver.AtPrefix | scrapegoat/app/scraping/captcha_solver.py:288-299 | a page matching the v3 literal matches the v2 literal `recaptcha/api.js` at the same place |
| CaptchaSolver.V2Finds | scrapegoat/app/scraping/captcha_solver.py:288-289 | the v2 search succeeds whenever `recaptcha/api.js` occurs, in any case |
| CaptchaSolver.V3NeverReported | scrapegoat/app/scraping/captcha_solver.py:288-302 | every page the v3 pattern matches is already matched by the v2 pattern, so `recaptcha_v3` is never reported |
| CaptchaSolver.ChallengeRule | scrapegoat/app/scraping/captcha_solver.py:318-320 | `cloudflare_challenge` is reported, with an empty site key, exactly when no earlier rule matches and the lower-cased page holds "cloudflare" and "challenge" or "checking your browser" |
| CaptchaSolver.DetectOutcome | scrapegoat/app/scraping/captcha_solver.py:278-326 | nothing is reported exactly when no rule matches; a reported site key holds no quote, is the 40-character key when the v2 rule found one, and is empty for the challenge and AWS WAF rules |
| CaptchaSolver.Detect | scrapegoat/app/scraping/captcha_solver.py:278-326 | nothing is reported only when none of the Turnstile, Cloudflare-challenge and AWS-WAF markers is present; a Cloudflare challenge or an AWS WAF is reported without a site key |
| CaptchaSolver.V2First | scrapegoat/app/scraping/captcha_solver.py:287-296 | a page the v2 pattern matches is reported as `recaptcha_v2` whatever later rules would say |
| CaptchaSolver.ChallengeStatus | scrapegoat/app/scraping/captcha_solver.py:329-343 | a status other than 403 or 503 is never a challenge; a 403 or 503 page mentioning Cloudflare always is |
| CaptchaSolver.DetectedChallengeIsChallenge | scrapegoat/app/scraping/captcha_solver.py:318-343 | a page detected as a generic challenge and served with 403 or 503 is recognised as a challenge response |
| TpsSpider.SearchUrlShape | scrapegoat/app/scraping/spiders/truepeoplesearch_spider.py:187-193 | the search URL starts with the find base, holds no space and no upper-case letter after it, and ends with "/" + the city's slug exactly in the city branch |
| TpsSpider.SlugNoSpace | scrapegoat/app/scraping/spiders/truepeoplesearch_spider.py:188-191 | replacing spaces by '-' and lower-casing leaves no space in the slug, with or without a city |
| TpsSpider.SlugCity | scrapegoat/app/scraping/spiders/truepeoplesearch_spider.py:188-189 | with a non-empty city the slug ends with '/' followed by the city lower-cased with spaces turned to '-' |
| TpsSpider.FirstHitIsFirst | scrapegoat/app/scraping/spiders/truepeoplesearch_spider.py:161-173 | extract gives None exactly when no mutation yields a truthy result, and otherwise the result of a mutation that does, every earlier one having yielded nothing |
| TpsSpider.Extract | scrapegoat/app/scraping/spiders/truepeoplesearch_spider.py:164-173 | the loop over the mutations returns the first truthy search result, in order, or None |
| TpsSpider.PhoneList | scrapegoat/app/scraping/spiders/truepeoplesearch_spider.py:290-293 | a phone number given as one string becomes a one-element list; any other value is kept |
| TpsSpider.BuildResultOutcome | scrapegoat/app/scraping/spiders/truepeoplesearch_spider.py:289-309 | a result exists exactly when the parsed data has truthy "Phone Numbers"; it is truthy, names TruePeopleSearch as source, carries relatives exactly on the browser path and a list of phones for a single string |
| TpsSpider.Prefix | scrapegoat/app/scraping/spiders/truepeoplesearch_spider.py:278 | `s[:n]` has length min(n, len(s)) and is the start of s |
| TpsSpider.CardHtmlBounded | scrapegoat/app/scraping/spiders/truepeoplesearch_spider.py:264-278 | without a result card, or when finding it raises, the parser sees the first at most 8000 characters of the page |
| TpsSpider.BlockedPageGivesNothing | scrapegoat/app/scraping/spiders/truepeoplesearch_spider.py:229-256 | a first page that fails verification and is not rescued by a triggered, successful CAPTCHA solve whose re-fetched page verifies gives None |
| TpsSpider.UntriggeredBlockedGivesNothing | scrapegoat/app/scraping/spiders/truepeoplesearch_spider.py:233-256 | an unverified first page in which no CAPTCHA is detected, or with no solver available and no cognitive mode with an OpenAI key, gives None whatever the solve and the re-fetched page would have been |
| TpsSpider.RescuedPageIsRefetched | scrapegoat/app/scraping/spiders/truepeoplesearch_spider.py:244-250 | after a triggered, successful solve whose re-fetched page verifies, the result is parsed from the re-fetched page, not the first one |
| TpsSpider.SearchWithHttp | scrapegoat/app/scraping/spiders/truepeoplesearch_spider.py:311-370 | a result comes only from a response with text that passed page verification and whose status is not 429, and it carries no relatives |
| TpsSpider.SearchWithBrowser | scrapegoat/app/scraping/spiders/truepeoplesearch_spider.py:208-309 | a result comes only from a first page that verified, or from a re-fetched page that verified after a solve that succeeded and was triggered by the rule of lines 239-243 (a CAPTCHA detected in the first page, and a solver available or cognitive mode with OPENAI_API_KEY); a first page that verified is parsed itself; a result carries relatives |
| TpsSpider.BlockedBeforeParsing | scrapegoat/app/scraping/spiders/truepeoplesearch_spider.py:328-336 | a Cloudflare challenge page, status 429 or "too many requests" gives None whatever the parser would say |
| TpsSpider.Spider.constructor | scrapegoat/app/scraping/spiders/truepeoplesearch_spider.py:55-64 | a new spider has no browser open and has launched none |
| TpsSpider.Spider.GetBrowser | scrapegoat/app/scraping/spiders/truepeoplesearch_spider.py:95-131 | fails when browser mode is unavailable; otherwise a browser is open afterwards and one is launched only if none was open |
| TpsSpider.Spider.Close | scrapegoat/app/scraping/spiders/truepeoplesearch_spider.py:372-376 | the browser is closed and forgotten |
| TpsSpider.TwoSearches | scrapegoat/app/scraping/spiders/truepeoplesearch_spider.py:95-131 | two browser searches in a row launch the browser at most once |
| Vision.TierFromEnv | chimera_brain/vision_service.py:42-44 | the tier is "hybrid" when VLM_TIER is unset, empty or not one of speed/accuracy/hybrid after lower-casing, and the named tier otherwise |
| Vision.LoadVlm | chimera_brain/vision_service.py:158-186 | the processor's tier is the one VLM_TIER names; DeepSeek counts as loaded only with USE_2026_VISION set; a failed DeepSeek load on the 2026 stack brings in BLIP-2 when it loads; nothing unloaded is ready |
| Vision.ResizeForTierOutcome | chimera_brain/vision_service.py:84-94 | target 896 for the speed tier and 1024 otherwise; a fitting image keeps its size; otherwise the longer side becomes the target and the shorter max(1, floor(short*target/long)), never larger than before |
| Vision.ScaledBelow | chimera_brain/vision_service.py:91-93 | scaling the shorter side by target/long keeps it within its own length and the target |
| Vision.FirstPairDigits | chimera_brain/vision_service.py:357-361 | the two numbers the pattern search captures are digit strings |
| Vision.FirstPairNone | chimera_brain/vision_service.py:357-358 | the pattern search finds nothing exactly when no position of the answer starts a match |
| Vision.FirstPairIsLeftmost | chimera_brain/vision_service.py:357-361 | a pair found by the search is the one matched at the leftmost position that matches |
| Vision.ClampBounds | chimera_brain/vision_service.py:362-363 | clamping is max(lo, min(v, hi)): inside [lo, hi] when that range is not empty, and the identity on values already inside |
| Vision.ParseCoordsOutcome | chimera_brain/vision_service.py:353-377 | an integer pair wins with confidence 0.85, clamped into [0,w]x[0,h]; otherwise CENTER (checked before every corner) gives (w//2, h//2) at 0.7 and a corner keyword a quarter point at 0.6; every point lies in the image |
| Vision.ParseCoords | chimera_brain/vision_service.py:353-377 | every point parsed lies within the image, with confidence 0.85, 0.7 or 0.6 |
| Vision.FallbackDetection | chimera_brain/vision_service.py:379-423 | the keyword fallback always has confidence 0.5 and a point inside the image |
| Vision.FallbackGeneric | chimera_brain/vision_service.py:410-417 | a command naming no button, click, input, field or type gets the centre (w//2, h//2) |
| Vision.NormalizeCommand | chimera_brain/vision_service.py:206-213 | the phone, age and income synonyms (after strip and lower) become the model's phrasing; any other command is kept as given |
| Vision.DriftIsL1 | chimera_brain/vision_service.py:197-204 | drift is the L1 distance from the suggestion exceeding 50, so a point 30 px off on both axes drifts though its Euclidean distance is under 50; without a suggestion there is no drift |
| Vision.GetClickCoordinates | chimera_brain/vision_service.py:214-218 | image bytes shorter than 8 give (0, 0, 0.0, False) |
| Vision.SpeedPathOutcome | chimera_brain/vision_service.py:223-253 | on the 2026 path a parsed point is scaled back and clamped to [0,iw-1]x[0,ih-1]; its confidence is 0.96 exactly after a hybrid-tier olmOCR confirmation and otherwise the parse's 0.85/0.7/0.6, so the 0.9 default never applies; drift follows the L1 rule |
| Vision.ConsensusNeedsHybridTier | chimera_brain/vision_service.py:236-242 | on the 2026 path with a parsed point, the consensus confidence 0.96 is reported exactly when olmOCR confirms and VLM_TIER is unset or, lower-cased, neither speed nor accuracy |
| Vision.FallbackNeverDrifts | chimera_brain/vision_service.py:254-283 | whenever no model answer is parsed, the keyword fallback answers with confidence 0.5 and no drift |
| Vision.SelectorFromIntentOutcome | chimera_brain/vision_service.py:506-552 | the first matching keyword rule decides; button rules win over input rules and those over links; "*" comes back exactly when no keyword occurs |
| Vision.FindNewSelectorFinding | chimera_brain/vision_service.py:454-503 | unpacking four results into three names means no screenshot ever gets a selector; with the four unpacked, a decodable screenshot gets the intent's selector at 0.8 of the click confidence |
| Vision.FindNewSelectorAsWritten | chimera_brain/vision_service.py:454-503 | as written no screenshot ever yields a selector; one of 8 bytes or more always ends in the error result |
| Vision.FindNewSelector | chimera_brain/vision_service.py:454-503 | a selector is reported exactly for a screenshot of at least 8 bytes that decodes, the error result exactly for one that does not decode; without a selector the confidence is 0.0 at (0, 0) |
| Vision.FindNewSelectorTiny | chimera_brain/vision_service.py:454-462 | a screenshot under 8 bytes gives no selector, confidence 0.0 and point (0, 0) |
| SelectorRegistry.RedisKeysDisjoint | chimera_brain/world_model/selector_registry.py:49-55 | a Redis selector key and a Redis failure key never coincide, so INCR never meets a selector document |
| SelectorRegistry.FallbackKeysCanMeet | chimera_brain/world_model/selector_registry.py:78-79 | in the fallback dictionary the selector key of ("failures", "a:b") is the failure key of ("a", "b") |
| SelectorRegistry.GetSelector | chimera_brain/world_model/selector_registry.py:57-79 | Redis answers first when connected and the read works and the key exists; otherwise the dictionary's entry, or None |
| SelectorRegistry.FailureCount | chimera_brain/world_model/selector_registry.py:146-157 | with a client connected only Redis is read and any error gives 0; without one the dictionary's entry, 0 when missing |
| SelectorRegistry.ShouldTrigger | chimera_brain/world_model/selector_registry.py:127-144 | the Trauma Center triggers exactly when the failure count is at least 3, whatever the doc-comment lists; a record under the counter key raises |
| SelectorRegistry.GetAfterRegister | chimera_brain/world_model/selector_registry.py:81-125 | register_selector returns "domain:intent", and get_selector for the same pair then returns the registered record, unless a failed Redis write left an older Redis record that a working read finds |
| SelectorRegistry.RegisterFrame | chimera_brain/world_model/selector_registry.py:113-123 | registering changes no failure count and no other pair's selector |
| SelectorRegistry.FailureIncrements | chimera_brain/world_model/selector_registry.py:160-178 | record_failure returns the previous count plus one, a missing count being 0, and the count then reads that value |
| SelectorRegistry.FailureFrame | chimera_brain/world_model/selector_registry.py:160-178 | a successful INCR leaves the dictionary untouched; otherwise only "failures:domain:intent" changes; selectors never change |
| SelectorRegistry.SuccessResets | chimera_brain/world_model/selector_registry.py:180-192 | after record_success the count reads 0 (unless a failed Redis delete left the counter for a working read), and only that pair's counter is removed from the dictionary |
| SelectorRegistry.ThreeFailuresTrigger | chimera_brain/world_model/selector_registry.py:127-178 | from a zero count, two failures do not trigger the Trauma Center and the third does |
| SelectorRegistry.CollidingRecordRaises | chimera_brain/world_model/selector_registry.py:113-144 | without Redis, a selector registered for ("failures", "a:b") makes the trigger decision for ("a", "b") raise |
| SelectorRegistry.Store.constructor | chimera_brain/world_model/selector_registry.py:29-47 | a new registry has an empty dictionary |
| SelectorRegistry.Store.RegisterSelector | chimera_brain/world_model/selector_registry.py:81-125 | the store's new state and the id are those of Register |
| SelectorRegistry.Store.RecordFailureOnStore | chimera_brain/world_model/selector_registry.py:160-178 | the store's new state and the returned count are those of RecordFailure |
| SelectorRegistry.Store.RecordSuccessOnStore | chimera_brain/world_model/selector_registry.py:180-192 | the store's new state is that of RecordSuccess |
| CaptchaAgent.MatchAt | chimera-core/captcha_agent.py:32-35 | a match of the pair pattern whose first number starts at p yields two non-negative numbers and ends after the second one, inside the text |
| CaptchaAgent.PairsNonNegative | chimera-core/captcha_agent.py:32-35 | every pair the pattern scan yields has non-negative coordinates |
| CaptchaAgent.NoDigitsNoPairs | chimera-core/captcha_agent.py:32 | a description without digits yields no pair |
| CaptchaAgent.AppendNewShape | chimera-core/captcha_agent.py:32-37 | appending only pairs not already present keeps the list's start, keeps it free of duplicates and leaves exactly the pairs of both lists |
| CaptchaAgent.ParseCoordsFromResponse | chimera-core/captcha_agent.py:26-38 | the loop over the matches builds the specified list: the single point first, then each new pair in order |
| CaptchaAgent.ParsedOutcome | chimera-core/captcha_agent.py:26-38 | a given single (x, y) is the first element; no pair appears twice; the list holds exactly the single point and the pairs found; it is [] exactly when there are neither |
| CaptchaAgent.Prompt | chimera-core/captcha_agent.py:79-95 | a non-empty override is the prompt; otherwise the chain-of-thought prompt with the frame's instruction when it has more than two characters, else the given instruction |
| CaptchaAgent.ClickedNonEmpty | chimera-core/captcha_agent.py:117-132 | some click goes through exactly when some target, shifted by the frame offset, is outside the forbidden regions and its click does not raise |
| CaptchaAgent.ClickAll | chimera-core/captcha_agent.py:117-132 | the click loop counts exactly the clicks that went through |
| CaptchaAgent.SolveVisualPuzzleOutcome | chimera-core/captcha_agent.py:56-135 | the puzzle counts as solved exactly when the screenshot has at least 8 bytes and at least one parsed point is clicked |
| CaptchaAgent.SolveVisualPuzzle | chimera-core/captcha_agent.py:56-135 | the method sends the prompt (override, or chain-of-thought prompt and instruction) to the vision call and returns the specified outcome for its answer: false for a screenshot under 8 bytes or when nothing was found or parsed, otherwise whether a click went through |
| CaptchaAgent.OverrideIsSent | chimera-core/captcha_agent.py:85-96 | with a non-empty override the outcome is that of the worker's answer to the override alone, whatever the instruction and the frame's text |
| CaptchaAgent.SolveWithVlmFirst | chimera-core/captcha_agent.py:138-152 | true exactly when one of the first max_attempts attempts succeeds; it stops at the first success and otherwise makes all max_attempts attempts (none when negative) |
| DncScrub.TokenPriority | scrapegoat/app/enrichment/dnc_scrub.py:111-146 | a non-empty Redis token wins; when Redis is unavailable, empty or failing, a non-empty USHA_JWT_TOKEN is used; a Cognito refresh token alone gives None; a returned token is never empty |
| DncScrub.Headers | scrapegoat/app/enrichment/dnc_scrub.py:149-169 | the Origin, Referer and Content-Type headers are always set, and Authorization is "Bearer " + token exactly when there is a token |
| DncScrub.CleanPhone | scrapegoat/app/enrichment/dnc_scrub.py:54-56 | the cleaned phone holds only digits |
| DncScrub.CleanPhoneTen | scrapegoat/app/enrichment/dnc_scrub.py:54-63 | the phone cleans to ten digits exactly when it has ten digits, or eleven with a leading 1, and those are its last ten digits |
| DncScrub.Classify | scrapegoat/app/enrichment/dnc_scrub.py:75-86 | a verdict only comes from a dictionary body; `.get` fails only on a value that is not a dictionary |
| DncScrub.NoTokenFailsOpen | scrapegoat/app/enrichment/dnc_scrub.py:43-50 | without a token the result is UNKNOWN with can_contact true and reason "Token not available" |
| DncScrub.ScrubDnc | scrapegoat/app/enrichment/dnc_scrub.py:29-109 | the status is one of UNKNOWN, INVALID, ERROR, YES and NO, and the lead may be contacted exactly for UNKNOWN, ERROR and NO: the scrub fails open, only YES and INVALID block |
| DncScrub.InvalidWithoutRequest | scrapegoat/app/enrichment/dnc_scrub.py:52-63 | a phone that does not clean to ten digits is INVALID and not contactable, whatever the registry would answer |
| DncScrub.ClassifiedAnswer | scrapegoat/app/enrichment/dnc_scrub.py:65-92 | for a readable answer the status is YES exactly when isDoNotCall == True or contactStatus.canContact == False, NO otherwise, and can_contact is its negation |
| DncScrub.ErrorsFailOpen | scrapegoat/app/enrichment/dnc_scrub.py:94-109 | a request error or an unreadable answer gives ERROR with can_contact true |
| DncScrub.NotContactableCases | scrapegoat/app/enrichment/dnc_scrub.py:29-109 | a lead is marked not contactable exactly when the status is YES or INVALID |

## Left out

- I/O and plumbing are not modelled:
  - the browser automation;
  - gRPC and the health servers;
  - the FastAPI wiring;
  - file reads and writes.

  A file write is at most a flag saying whether it succeeded.
- Concurrency is not modelled:
  - the `asyncio.gather` over sites in `scrape_enrich` is a sequential choice of the first of the first three sites that yields a phone;
  - executor threads are not modelled;
  - the worker's thread supervision is not modelled.
- Time is not modelled:
  - Redis expiry (TTL): a key written with an expiry is simply set;
  - `time.sleep`: the queue worker returns the delay it would wait, and the CAPTCHA solver counts elapsed seconds;
  - timestamps, start times and durations in history entries and step entries: timestamps are parameters where they are stored, and are otherwise dropped.
- Randomness and humanlike behaviour are not modelled:
  - the CAPTCHA agent's jitter and pauses;
  - stealth fingerprints;
  - Bezier mouse paths.
- Model inference is not modelled:
  - image decoding, DeepSeek-VL2 and olmOCR inference, the LLM parser and the sentence-embedding hive mind;
  - `SimpleCoordinateDetector`;
  - model loading and the latency webhook;
  - the olmOCR intent check, which is a parameter.
- The webhook posted by `blacklist_provider` is not modelled. Neither are logging and the diagnostic progress-queue substeps.
- Text handling is ASCII only:
  - `\d`, `\w` and `\s` and case conversion cover ASCII only;
  - Unicode digits, letters and spaces are treated as other characters.
- `Json.PyStr` renders strings, integers, booleans, `None` and lists of these as Python's `str` does, a string inside a list through `repr` in the ASCII range. A float renders as the placeholder "<float>" and a dictionary as "<dict>", because the model's dictionaries keep no insertion order and Python's float formatting is not modelled. Non-ASCII characters inside a listed string are kept as they are, where `repr` escapes the non-printable ones.
- SkipTracing.ExtractEmail: an email field holding a dictionary, or a list holding one, is shown as "<dict>", which has no '@', so the model goes on searching where the source returns `str(email)` when that text holds an '@'.
- IdentityResolution.RawName: a first or last name given as a float or a dictionary is formatted into the name as its placeholder, where Python writes the number or the dictionary.
- SkipTracing.ByNameAddress: the same placeholder for a float or dictionary first or last name in the query's name.
- Python `float` is an exact `real`:
  - `int(x * 0.85)`-style truncations are written out explicitly;
  - rounding error in confidence sums is not modelled.
- The database is a map from LinkedIn URL to row, and the psycopg2 connection is left out. Whether PostgreSQL takes a row's values for the column types of `ensure_table_exists` is a parameter, `accepts`. `Database.DeclaredFit` states the refusals those columns make certain, and `Database.HonoursColumns` ties the parameter to them. A refused row makes the insert raise a `DataError` or `ProgrammingError`, reported as failure. A missing URL in a row the database takes makes the insert raise an integrity error. The source treats that as a saved lead, and so does the model.
- Database.Save: the stored row holds each value as the lead gives it, where PostgreSQL stores the column's conversion of it (the text "45" as the integer 45, text cut back to the column's width when the excess is spaces, a float age rounded to a whole number).
- Database.DeclaredFit: it names the certain refusals only, namely a dictionary value, text over its width, and an age no integer literal can spell. Conversions it leaves to the `accepts` parameter include a boolean or a number in a text column, and an integer literal's exact syntax, which differs between PostgreSQL versions.
- The Redis client in `SelectorRegistry`:
  - whether each Redis call raises is a parameter;
  - `get_selector` reads the in-memory fallback when Redis is absent, raises or has no entry;
  - `record_failure` counts in the fallback when Redis is absent or `INCR` raises;
  - `get_failure_count` with Redis connected answers 0 on an error and never reads the fallback;
  - `record_success` always deletes the fallback counter.
- The metadata and timestamps of the record that `find_new_selector` builds are not modelled.
- The TruePeopleSearch spider does not model loading cookies from Redis. On the browser path, the pages, their verification and the solve attempt's success are parameters. The rule that decides whether a solve is attempted is modelled.
- The USHA Do-Not-Call scrub does not model the second Redis read that `get_usha_headers` makes for the token. The registry's HTTP request is a parameter.
- Unreachable source branches are kept as the source has them:
  - `AutoMap.FoundDecision`: the "rejected" outcome of `attempt_auto_map` is unreachable, because a page that reaches the decision always has overall confidence 0 or at least 0.5;
  - `Vision.ParseCoordsOutcome`: the 0.9 default confidence is never returned.
- Behaviour the model reproduces as written:
  - a provider name made only of spaces gives the domain ".com";
  - `retry_one` removes the first "__REMOVED__" marker in the list, which may be an earlier one;
  - `_resize_for_tier` gives a height of 1 even for a zero-height image;
  - `SkipTracing` keeps all digits of a phone with 12 or more digits;
  - `Database` labels a direct age "chimera" whenever the chimera age is set.
  - `save_blueprint` strips "https://", "http://" and "www." in one left-to-right pass each, so the removal can join the text around it into a new prefix: "wwwww.w.x.com" is filed under "www.x.com". `Api.NormalizeDomain` states the exact result: the stripped text up to its first '/'.
- The attribute parse of the last Findings row is used in its corrected form, which accepts hyphenated names, by the members below. Each reads `css::attr(data-x)` as the attribute `data-x` of `css`, where the source as written hands the whole selector to `select_one`. `ScrapeEnrich.ParseCssAsWritten` and `ScrapeEnrich.HyphenatedAttrNotRecognised` state the written behaviour.
- ScrapeEnrich.ExtractAttr: reads a hyphenated attribute name, which the source as written does not recognise.
- ScrapeEnrich.CssPick: picks through the corrected attribute parse.
- ScrapeEnrich.HtmlFields: extracts through the corrected attribute parse.
- ScrapeEnrich.ExtractFromHtml: extracts through the corrected attribute parse.
- ScrapeEnrich.TrySite: a site's fields come from the corrected attribute parse.
- ScrapeEnrich.ScrapeEnrichSites: the chosen site's fields come from the corrected attribute parse.
- Text.ParseFloat reads decimal and scientific notation but not "inf", "infinity" or "nan", and no value overflows to infinity. "inf" and the like are read as not a number, and "1e400" as the exact 10^400, where Python's `float()` gives infinity.
- ScraperEnrichment.NormalizeIncome: does not model `normalize_income("inf")` or `normalize_income("1e400")` raising `OverflowError` from `int(float(...))`, which `except ValueError` does not catch; the model returns "inf" unchanged and formats 10^400. "nan" comes back unchanged in both, through the caught `ValueError`.
- ScraperEnrichment.ReadIncome: the same "inf" and overflow gap as `NormalizeIncome`.
- PoisonValidator.FloatOf: reads "inf" and "nan" as not a number, where Python's `float()` accepts them.
- The members below assume that the mission router never returns a provider already in `tried` (`RouterFresh`). The source's `while True` loop in enrichment.py ends only if the router honours `tried`; with a router that does not, the source can loop for ever, and the model says nothing about that case.
- Stations.Loop: assumes `RouterFresh`.
- Stations.Chimera: assumes `RouterFresh`.
- Stations.CrossCheckPushes: assumes `RouterFresh`.
- Stations.FinishOutcome: assumes `RouterFresh`.
- Stations.LoopOutcome: assumes `RouterFresh`.
- Stations.ChimeraOutcome: assumes `RouterFresh`.
- Stations.ChimeraOnStore: assumes `RouterFresh`.
- Vision.FallbackDetection computes `int(height * 0.35)` and the other fractions exactly (`h * 35 / 100`). Python's float product can come out one lower: `int(180 * 0.35)` is 62, where the model gives 63. `Vision.ResizeForTier` has no such gap: for integers of image size the float quotient `h * target / w` never rounds across a whole number, so truncating it agrees with the model's integer division.
- These files are not part of this model:
  - chimera-core/workers.py, stealth.py, human_behavior.py, validation.py, db_bridge.py, health_audit.py, storage_bridge.py, capsolver.py and build.rs;
  - chimera_brain/hive_mind.py and server.py;
  - scrapegoat/start_redis_worker.py.

## Findings

| source | as written | input that shows it | evidently intended | confidence | as-written member | corrected member |
|---|---|---|---|---|---|---|
| scrapegoat/app/workers/redis_queue_worker.py:118 | `PipelineEngine.run` is called with a `progress_queue` keyword it does not accept, so the call raises and every lead counts as failed with no steps | a one-station route whose station saves the lead | the run without that keyword, reporting the pipeline's success and steps | not executed | QueueWorker.ProcessWithStepsAsWritten | QueueWorker.ProcessWithStepsAgrees |
| scrapegoat/main.py:731-752 | the 400 raised for a missing domain is caught by the generic handler and re-raised as 500 | a request body without "domain" | 400 for a missing domain | not executed | Api.SaveBlueprintAsWritten | Api.SaveBlueprintOutcome |
| chimera_brain/vision_service.py:471 | `get_click_coordinates` returns four values but three are unpacked, so `find_new_selector` always ends in its error result | any screenshot of 8 bytes or more that decodes | the selector for the intent at 0.8 of the click confidence | not executed | Vision.FindNewSelectorAsWritten | Vision.FindNewSelectorFinding |
| scrapegoat/app/enrichment/scraper_enrichment.py:212 | the attribute pattern `::attr\((\w+)\)` does not match hyphenated names, so a selector is passed whole to the CSS engine | "[data-phone]::attr(data-phone)", which selector discovery emits | the attribute query for `data-phone` | not executed | ScrapeEnrich.HyphenatedAttrNotRecognised | ScrapeEnrich.ParseCssAttrRoundTrip |
