/**
 * Value normalisation and blueprint-driven extraction used by the scraper
 * enrichment path (scrapegoat/app/enrichment/scraper_enrichment.py): URL
 * slugs, phone and income formatting, the `$.a.b[i]` JSON-path reader
 * and request building from a blueprint. Selector parsing and the
 * extraction loops are in `ScrapeEnrich`.
 */
module ScraperEnrichment {
  import opened Wrappers
  import opened Text
  import opened Json
  import Validators

  // ---------------------------------------------------------------------
  // Slugs
  // ---------------------------------------------------------------------

  /** Characters `[^\w\s-]` does not remove. */
  predicate Kept(c: char) { IsWordChar(c) || IsSpace(c) || c == '-' }

  /** Characters `[\s_]` matches. */
  predicate IsSep(c: char) { IsSpace(c) || c == '_' }

  /** Letters, digits and hyphens only. */
  predicate SlugChars(s: string) {
    forall i :: 0 <= i < |s| ==> IsAlpha(s[i]) || IsDigit(s[i]) || s[i] == '-'
  }

  predicate NoDoubleHyphen(s: string) {
    forall i :: 0 <= i < |s| - 1 ==> !(s[i] == '-' && s[i + 1] == '-')
  }

  predicate NoEdgeHyphen(s: string) {
    s == [] || (s[0] != '-' && s[|s| - 1] != '-')
  }

  /** `re.sub(r'[^\w\s-]', '', s)`. */
  function RemoveSpecial(s: string): (r: string)
    ensures forall i :: 0 <= i < |r| ==> Kept(r[i])
  {
    if s == [] then [] else (if Kept(s[0]) then [s[0]] else []) + RemoveSpecial(s[1..])
  }

  function DropSeps(s: string): (r: string)
    ensures |r| <= |s| && r == s[|s| - |r|..]
    ensures r == [] || !IsSep(r[0])
  {
    if s != [] && IsSep(s[0]) then DropSeps(s[1..]) else s
  }

  /** `re.sub(r'[\s_]+', '-', s)`: each run of whitespace and underscores becomes one hyphen. */
  function DashSeparators(s: string): (r: string)
    ensures (forall i :: 0 <= i < |s| ==> Kept(s[i])) ==> SlugChars(r)
    decreases |s|
  {
    if s == [] then []
    else if IsSep(s[0]) then "-" + DashSeparators(DropSeps(s))
    else [s[0]] + DashSeparators(s[1..])
  }

  function DropHyphens(s: string): (r: string)
    ensures |r| <= |s| && r == s[|s| - |r|..]
    ensures r == [] || r[0] != '-'
  {
    if s != [] && s[0] == '-' then DropHyphens(s[1..]) else s
  }

  /** `re.sub(r'-+', '-', s)`: each run of hyphens becomes one hyphen. */
  function CollapseHyphens(s: string): (r: string)
    ensures SlugChars(s) ==> SlugChars(r)
    ensures NoDoubleHyphen(r)
    ensures r == [] <==> s == []
    ensures r != [] ==> (r[0] == '-' <==> s[0] == '-')
    decreases |s|
  {
    if s == [] then []
    else if s[0] == '-' then "-" + CollapseHyphens(DropHyphens(s))
    else [s[0]] + CollapseHyphens(s[1..])
  }

  /** `s.strip('-')` keeps a slice, so slice-closed properties survive it. */
  lemma {:induction false} StripHyphensKeeps(s: string)
    ensures SlugChars(s) ==> SlugChars(StripChar(s, '-'))
    ensures NoDoubleHyphen(s) ==> NoDoubleHyphen(StripChar(s, '-'))
    decreases |s|
  {
    var t := RStripChar(s, '-');
    assert t == s[..|t|];
    if t != [] && t[0] == '-' {
      assert t[1..] == s[1..|t|];
      StripHyphensKeeps(t[1..]);
    }
  }

  lemma LowerKeeps(s: string)
    ensures SlugChars(s) ==> SlugChars(Lower(s))
    ensures NoDoubleHyphen(s) ==> NoDoubleHyphen(Lower(s))
    ensures NoEdgeHyphen(s) ==> NoEdgeHyphen(Lower(s))
    ensures forall i :: 0 <= i < |s| ==> (Lower(s)[i] == '-' <==> s[i] == '-')
  {
  }

  /** The slug before optional lowercasing. */
  function SlugBase(text: string): (r: string)
    ensures SlugChars(r) && NoDoubleHyphen(r) && NoEdgeHyphen(r)
  {
    var slug := Strip(text);
    var slug1 := RemoveSpecial(slug);
    var slug2 := DashSeparators(slug1);
    var slug3 := CollapseHyphens(slug2);
    StripHyphensKeeps(slug3);
    StripChar(slug3, '-')
  }

  /**
   * `slugify(text, lowercase)`: only letters, digits and single hyphens,
   * no hyphen at either end, no upper-case letter when `lowercase` is set.
   */
  function Slugify(text: string, lowercase: bool := true): (r: string)
    ensures SlugChars(r) && NoDoubleHyphen(r) && NoEdgeHyphen(r)
    ensures lowercase ==> forall i :: 0 <= i < |r| ==> !IsUpper(r[i])
    ensures text == [] ==> r == []
  {
    if text == [] then ""
    else
      var slug := SlugBase(text);
      LowerKeeps(slug);
      if lowercase then Lower(slug) else slug
  }

  /** `str.capitalize()`: first character upper-case, the rest lower-case. */
  function Capitalize(w: string): (r: string)
    ensures |r| == |w|
    ensures r != [] ==> !IsLower(r[0])
    ensures forall i :: 1 <= i < |r| ==> !IsUpper(r[i])
  {
    if w == [] then [] else [UpperChar(w[0])] + Lower(w[1..])
  }

  function CapitalizeAll(ws: seq<string>): (r: seq<string>)
    ensures |r| == |ws|
    ensures forall k :: 0 <= k < |ws| ==> r[k] == Capitalize(ws[k])
  {
    if ws == [] then [] else [Capitalize(ws[0])] + CapitalizeAll(ws[1..])
  }

  /** `titleize_slug(text)`: the slug's hyphen-separated parts, each capitalised. */
  function TitleizeSlug(text: string): string {
    if text == [] then ""
    else Join(CapitalizeAll(Split(SlugBase(text), '-')), "-")
  }

  lemma {:induction false} LowerAppend(a: string, b: string)
    ensures Lower(a + b) == Lower(a) + Lower(b)
  {
  }

  lemma LowerCapitalize(w: string)
    ensures Lower(Capitalize(w)) == Lower(w)
  {
    if w != [] {
      LowerAppend([UpperChar(w[0])], Lower(w[1..]));
      LowerAppend([w[0]], w[1..]);
      assert w == [w[0]] + w[1..];
    }
  }

  lemma {:induction false} LowerJoinCapitalized(ws: seq<string>)
    ensures Lower(Join(CapitalizeAll(ws), "-")) == Lower(Join(ws, "-"))
  {
    if |ws| == 1 {
      LowerCapitalize(ws[0]);
    } else if |ws| > 1 {
      var cs := CapitalizeAll(ws);
      assert cs[1..] == CapitalizeAll(ws[1..]);
      LowerJoinCapitalized(ws[1..]);
      LowerCapitalize(ws[0]);
      LowerAppend(cs[0] + "-", Join(cs[1..], "-"));
      LowerAppend(cs[0], "-");
      LowerAppend(ws[0] + "-", Join(ws[1..], "-"));
      LowerAppend(ws[0], "-");
    }
  }

  /** Lower-casing the title-case slug gives the lower-case slug: same letters, same hyphens. */
  lemma TitleizeLowersToSlug(text: string)
    ensures Lower(TitleizeSlug(text)) == Slugify(text, true)
  {
    if text != [] {
      var b := SlugBase(text);
      LowerJoinCapitalized(Split(b, '-'));
      JoinSplit(b, '-');
    }
  }

  lemma CapitalizeNoHyphen(w: string)
    requires '-' !in w
    ensures '-' !in Capitalize(w)
  {
    if w != [] {
      assert forall i :: 1 <= i < |w| ==> Lower(w[1..])[i - 1] == LowerChar(w[i]);
    }
  }

  /**
   * Every hyphen-separated part of the title-case slug starts with a
   * character that is not a lower-case letter, and continues without
   * upper-case letters.
   */
  lemma TitleizeCapitalisesParts(text: string)
    ensures forall p :: p in Split(TitleizeSlug(text), '-') ==>
              (p == [] || !IsLower(p[0])) && forall i :: 1 <= i < |p| ==> !IsUpper(p[i])
  {
    if text != [] {
      var parts := Split(SlugBase(text), '-');
      var caps := CapitalizeAll(parts);
      forall k | 0 <= k < |caps| ensures '-' !in caps[k] {
        CapitalizeNoHyphen(parts[k]);
      }
      SplitJoin(caps, '-');
    } else {
      assert Split("", '-') == [""];
    }
  }

  // ---------------------------------------------------------------------
  // Phone and income formatting
  // ---------------------------------------------------------------------

  /** "+1" followed by exactly ten digits. */
  predicate IsE164US(r: string) {
    |r| == 12 && r[..2] == "+1" && AllDigits(r[2..])
  }

  /**
   * `normalize_phone(phone)`: ten digits, or eleven led by 1, become
   * "+1" and ten digits; other '+'-prefixed input is kept as written; a
   * longer number keeps its last ten digits; anything shorter is dropped.
   */
  function NormalizePhone(phone: string): (r: string)
    ensures r == "" || r[0] == '+'
    ensures !StartsWith(phone, "+") ==> r == "" || IsE164US(r)
    ensures |Digits(phone)| < 10 ==> r == "" || r == phone
    ensures |Digits(phone)| < 10 && !StartsWith(phone, "+") ==> r == ""
    ensures |Digits(phone)| >= 10 && !StartsWith(phone, "+") ==> IsE164US(r)
  {
    if phone == [] then ""
    else
      var digits := Digits(phone);
      if |digits| == 10 then "+1" + digits
      else if |digits| == 11 && digits[0] == '1' then "+" + digits
      else if StartsWith(phone, "+") then phone
      else if |digits| >= 10 then "+1" + digits[|digits| - 10..]
      else ""
  }

  /** A plausible phone normalises to "+1" and its last ten digits. */
  lemma PlausiblePhoneNormalizes(phone: string)
    requires Validators.IsPlausiblePhone(Some(phone))
    ensures NormalizePhone(phone) == "+1" + Digits(phone)[|Digits(phone)| - 10..]
  {
    var d := Digits(phone);
    if |d| == 11 {
      assert "+" + d == "+1" + d[1..] by { assert d == [d[0]] + d[1..]; }
    }
  }

  /** Normalising an already normalised number changes nothing. */
  lemma NormalizePhoneIdempotent(phone: string)
    ensures NormalizePhone(NormalizePhone(phone)) == NormalizePhone(phone)
  {
    var r := NormalizePhone(phone);
    if IsE164US(r) {
      assert r == "+1" + r[2..];
      DigitsAppend("+1", r[2..]);
      assert Digits("+1") == "1";
    }
  }

  /** `"$" + f"{v:,}"`, the income format. */
  function FormatIncome(v: int): string {
    "$" + GroupedInt(v)
  }

  /** The income text with "$" and "," removed, after trimming. */
  function CleanIncome(income: string): string {
    ReplaceAll(ReplaceAll(Strip(income), "$", ""), ",", "")
  }

  /**
   * `normalize_income(income)`: "Nk" becomes N thousand, a number becomes
   * itself, both written as "$" and comma-grouped digits; anything else is
   * returned cleaned of "$" and ",".
   */
  function NormalizeIncome(income: string): (r: string)
    ensures income == [] ==> r == []
    ensures r == CleanIncome(income) || (r != [] && r[0] == '$')
  {
    if income == [] then "" else ReadIncome(CleanIncome(income))
  }

  /** The reading step of `normalize_income`, on the cleaned text. */
  function ReadIncome(s: string): (r: string)
    ensures r == s || (r != [] && r[0] == '$')
  {
    var k := if s != [] && LowerChar(s[|s| - 1]) == 'k' then ParseInt(s[..|s| - 1]) else None;
    if k.Some? then FormatIncome(k.value * 1000)
    else match ParseFloatTrunc(s)
      case Some(v) => FormatIncome(v)
      case None => s
  }

  lemma {:induction false} ReplaceCommasIsDigits(s: string)
    requires forall i :: 0 <= i < |s| ==> IsDigit(s[i]) || s[i] == ','
    ensures ReplaceAll(s, ",", "") == Digits(s)
  {
    if s != [] {
      ReplaceCommasIsDigits(s[1..]);
    }
  }

  /** The cleaned income never contains "$" or ",". */
  lemma CleanIncomeHasNoSymbols(income: string)
    ensures '$' !in CleanIncome(income) && ',' !in CleanIncome(income)
  {
    var t := ReplaceAll(Strip(income), "$", "");
    ReplaceSingleGone(Strip(income), '$');
    ReplaceSingleGone(t, ',');
    ReplaceKeepsAbsent(t, ',', '$');
  }

  lemma {:induction false} ReplaceKeepsAbsent(s: string, c: char, d: char)
    requires d !in s
    ensures d !in ReplaceAll(s, [c], "")
  {
    if s != [] {
      ReplaceKeepsAbsent(s[1..], c, d);
    }
  }

  /** "Nk" is read as N thousand. */
  lemma IncomeInThousands(n: nat)
    ensures NormalizeIncome(ShowNat(n) + "k") == FormatIncome(n * 1000)
  {
    var x := ShowNat(n) + "k";
    assert NoSpace(x);
    ReplaceCharAbsent(x, '$', "");
    ReplaceCharAbsent(x, ',', "");
    assert CleanIncome(x) == x;
    assert x[..|x| - 1] == ShowNat(n);
    NatOfShowNat(n);
  }

  lemma CleanFormatted(v: nat)
    ensures CleanIncome(FormatIncome(v)) == Digits(Thousands(v))
  {
    var f := FormatIncome(v);
    var t := Thousands(v);
    assert NoSpace(f);
    assert ReplaceAll(f, "$", "") == ReplaceAll(t, "$", "");
    ReplaceCharAbsent(t, '$', "");
    ReplaceCommasIsDigits(t);
  }

  lemma ReadDigits(s: string)
    requires s != [] && AllDigits(s)
    ensures ReadIncome(s) == FormatIncome(NatOf(s))
  {
    assert LowerChar(s[|s| - 1]) != 'k';
  }

  /** Scientific notation is a number too: "15e3" normalises to "$15,000", as `float("15e3")` reads it. */
  lemma ReadScientific(a: string, b: string)
    requires a != [] && AllDigits(a) && b != [] && AllDigits(b)
    ensures ReadIncome(a + "e" + b) == FormatIncome(NatOf(a) * Pow10(NatOf(b)))
  {
    var s := a + "e" + b;
    assert s[|s| - 1] == b[|b| - 1];
    assert LowerChar(s[|s| - 1]) != 'k';
    ParseFloatScientific(a, b);
  }

  lemma {:induction false} DigitsNonEmpty(t: string)
    requires t != [] && IsDigit(t[0])
    ensures Digits(t) != []
  {
  }

  /** A formatted income is a fixed point: normalising it again changes nothing. */
  lemma IncomeFormatFixpoint(v: nat)
    ensures NormalizeIncome(FormatIncome(v)) == FormatIncome(v)
  {
    CleanFormatted(v);
    ThousandsDigits(v);
    DigitsNonEmpty(Thousands(v));
    ReadDigits(Digits(Thousands(v)));
  }

  // ---------------------------------------------------------------------
  // JSON paths: "$.data.person.phones[0].number"
  // ---------------------------------------------------------------------

  /** One dot-separated part of a JSON path: a key, or a key and a list index. */
  datatype PathStep = Key(key: string) | Index(key: string, index: int)

  /**
   * How one part is read: a part with '[' must split into exactly a key
   * and an index text, and the index text (trailing ']' removed) must be
   * an integer; otherwise the read fails (`None`), as the unpacking or
   * `int()` would raise.
   */
  function ParsePart(part: string): Option<PathStep> {
    if '[' in part then
      var pieces := Split(part, '[');
      if |pieces| != 2 then None
      else match ParseInt(RStripChar(pieces[1], ']'))
        case Some(i) => Some(Index(pieces[0], i))
        case None => None
    else Some(Key(part))
  }

  /** One step down: a present key of a dictionary, or a valid index of the list under it. */
  function StepInto(current: Json, st: PathStep): (r: Option<Json>)
    ensures r.Some? ==> current.JObj? && st.key in current.fields
    ensures st.Index? && r.Some? ==>
              current.fields[st.key].JList? && 0 <= st.index < |current.fields[st.key].items|
  {
    match st
    case Key(k) =>
      if current.JObj? && k in current.fields then Some(current.fields[k]) else None
    case Index(k, i) =>
      if current.JObj? && k in current.fields then
        var arr := current.fields[k];
        if arr.JList? && 0 <= i < |arr.items| then Some(arr.items[i]) else None
      else None
  }

  /** The value reached by reading `parts` in order from `current`, if every read succeeds. */
  function Walk(current: Json, parts: seq<string>): Option<Json>
    decreases |parts|
  {
    if parts == [] then Some(current)
    else match ParsePart(parts[0])
      case None => None
      case Some(st) =>
        match StepInto(current, st)
        case None => None
        case Some(next) => Walk(next, parts[1..])
  }

  /** What `_extract_by_json_path` returns: `str()` of the reached value, `None` for a null or a failed read. */
  function JsonPathValue(data: Json, jsonPath: string): (r: Option<string>)
    ensures !StartsWith(jsonPath, "$.") ==> r == None
  {
    if jsonPath == [] || !StartsWith(jsonPath, "$.") then None
    else match Walk(data, Split(jsonPath[2..], '.'))
      case None => None
      case Some(v) => if v == JNull then None else Some(PyStr(v))
  }

  /** `_extract_by_json_path(data, json_path)`: reads the path part by part, updating `current`. */
  method ExtractByJsonPath(data: Json, jsonPath: string) returns (r: Option<string>)
    ensures r == JsonPathValue(data, jsonPath)
  {
    if jsonPath == [] || !StartsWith(jsonPath, "$.") {
      return None;
    }
    var parts := Split(jsonPath[2..], '.');
    var current := data;
    var i := 0;
    while i < |parts|
      invariant 0 <= i <= |parts|
      invariant Walk(data, parts) == Walk(current, parts[i..])
    {
      assert parts[i..][1..] == parts[i + 1..];
      var st := ParsePart(parts[i]);
      if st.None? {
        return None;
      }
      var next := StepInto(current, st.value);
      if next.None? {
        return None;
      }
      current := next.value;
      i := i + 1;
    }
    r := if current == JNull then None else Some(PyStr(current));
  }

  /** The text of one path step. */
  function RenderStep(st: PathStep): string
    requires WritableStep(st)
  {
    match st
    case Key(k) => k
    case Index(k, i) => k + "[" + ShowNat(i) + "]"
  }

  /** A key that can be written in a path: no '.', '[' or ']'. */
  predicate PlainKey(k: string) { '.' !in k && '[' !in k && ']' !in k }

  predicate WritableStep(st: PathStep) {
    PlainKey(st.key) && (st.Index? ==> st.index >= 0)
  }

  function RenderSteps(steps: seq<PathStep>): (r: seq<string>)
    requires forall j :: 0 <= j < |steps| ==> WritableStep(steps[j])
    ensures |r| == |steps|
    ensures forall j :: 0 <= j < |steps| ==> r[j] == RenderStep(steps[j])
  {
    if steps == [] then [] else [RenderStep(steps[0])] + RenderSteps(steps[1..])
  }

  /** `"$." + ".".join(parts)`. */
  function PathText(steps: seq<PathStep>): string
    requires forall j :: 0 <= j < |steps| ==> WritableStep(steps[j])
  {
    "$." + Join(RenderSteps(steps), ".")
  }

  /** The smallest document in which `steps` lead to `v`. */
  function Nest(steps: seq<PathStep>, v: Json): Json
    requires forall j :: 0 <= j < |steps| ==> WritableStep(steps[j])
  {
    if steps == [] then v
    else
      var inner := Nest(steps[1..], v);
      match steps[0]
      case Key(k) => JObj(map[k := inner])
      case Index(k, i) =>
        assert WritableStep(steps[0]);
        JObj(map[k := JList(seq(i + 1, j requires 0 <= j <= i => if j == i then inner else JNull))])
  }

  lemma ParseRenderStep(st: PathStep)
    requires WritableStep(st)
    ensures ParsePart(RenderStep(st)) == Some(st)
  {
    match st
    case Key(k) =>
    case Index(k, i) =>
      var t := k + "[" + ShowNat(i) + "]";
      assert '[' in t by { assert t[|k|] == '['; }
      assert t == k + ['['] + (ShowNat(i) + "]");
      SplitNoSep(ShowNat(i) + "]", '[');
      SplitAppend(k, '[', ShowNat(i) + "]");
      assert RStripChar(ShowNat(i) + "]", ']') == ShowNat(i) by {
        assert (ShowNat(i) + "]")[..|ShowNat(i)|] == ShowNat(i);
      }
      NatOfShowNat(i);
  }

  lemma {:induction false} WalkNest(steps: seq<PathStep>, v: Json)
    requires forall j :: 0 <= j < |steps| ==> WritableStep(steps[j])
    ensures Walk(Nest(steps, v), RenderSteps(steps)) == Some(v)
  {
    if steps != [] {
      var parts := RenderSteps(steps);
      ParseRenderStep(steps[0]);
      StepIntoNest(steps, v);
      assert parts[1..] == RenderSteps(steps[1..]);
      WalkNest(steps[1..], v);
    }
  }

  /** The first step of a path leads into the document nested under the rest of it. */
  lemma StepIntoNest(steps: seq<PathStep>, v: Json)
    requires steps != []
    requires forall j :: 0 <= j < |steps| ==> WritableStep(steps[j])
    ensures StepInto(Nest(steps, v), steps[0]) == Some(Nest(steps[1..], v))
  {
  }

  lemma RenderedPartsHaveNoDot(st: PathStep)
    requires WritableStep(st)
    ensures '.' !in RenderStep(st)
  {
    if st.Index? {
      var d := ShowNat(st.index);
      assert forall c :: c in d ==> IsDigit(c);
    }
  }

  /**
   * Round trip: writing a path out and reading it back from the document
   * it describes returns the value placed there.
   */
  lemma JsonPathRoundTrip(steps: seq<PathStep>, v: Json)
    requires |steps| >= 1
    requires forall j :: 0 <= j < |steps| ==> WritableStep(steps[j])
    requires v != JNull
    ensures JsonPathValue(Nest(steps, v), PathText(steps)) == Some(PyStr(v))
  {
    var parts := RenderSteps(steps);
    forall k | 0 <= k < |parts| ensures '.' !in parts[k] {
      RenderedPartsHaveNoDot(steps[k]);
    }
    SplitJoin(parts, '.');
    var p := PathText(steps);
    assert p[2..] == Join(parts, ".");
    WalkNest(steps, v);
  }

  /** A read through a missing key fails, whatever follows. */
  lemma MissingKeyFails(data: Json, k: string, rest: seq<string>)
    requires PlainKey(k)
    requires !(data.JObj? && k in data.fields)
    ensures Walk(data, [k] + rest) == None
  {
    assert ([k] + rest)[1..] == rest;
  }

  // ---------------------------------------------------------------------
  // Request building from a blueprint
  // ---------------------------------------------------------------------

  /** Characters `quote_plus` leaves as they are. */
  predicate Unreserved(c: char) {
    IsAlpha(c) || IsDigit(c) || c == '_' || c == '.' || c == '-' || c == '~'
  }

  function HexDigit(d: nat): (c: char)
    requires d < 16
    ensures IsDigit(c) || 'A' <= c <= 'F'
  {
    if d < 10 then DigitChar(d) else ('A' as int + d - 10) as char
  }

  /** The UTF-8 bytes of one character. */
  function Utf8(c: char): (bs: seq<nat>)
    ensures 1 <= |bs| <= 4 && forall j :: 0 <= j < |bs| ==> bs[j] < 256
  {
    var n := c as int;
    if n < 0x80 then [n]
    else if n < 0x800 then [0xC0 + n / 64, 0x80 + n % 64]
    else if n < 0x10000 then [0xE0 + n / 4096, 0x80 + n / 64 % 64, 0x80 + n % 64]
    else [0xF0 + n / 262144, 0x80 + n / 4096 % 64, 0x80 + n / 64 % 64, 0x80 + n % 64]
  }

  function PercentBytes(bs: seq<nat>): (r: string)
    requires forall j :: 0 <= j < |bs| ==> bs[j] < 256
    ensures forall j :: 0 <= j < |r| ==> r[j] == '%' || IsDigit(r[j]) || 'A' <= r[j] <= 'F'
  {
    if bs == [] then [] else ['%', HexDigit(bs[0] / 16), HexDigit(bs[0] % 16)] + PercentBytes(bs[1..])
  }

  /** A character of `quote_plus` output. */
  predicate EncodedChar(c: char) {
    Unreserved(c) || c == '+' || c == '%'
  }

  /** `urllib.parse.quote_plus(s)`: space becomes '+', other reserved characters %XX of their UTF-8 bytes. */
  function QuotePlus(s: string): (r: string)
    ensures forall j :: 0 <= j < |r| ==> EncodedChar(r[j])
    ensures (forall j :: 0 <= j < |s| ==> Unreserved(s[j])) ==> r == s
  {
    if s == [] then []
    else
      var c := s[0];
      (if Unreserved(c) then [c] else if c == ' ' then "+" else PercentBytes(Utf8(c))) + QuotePlus(s[1..])
  }

  /** Request parameters, in the order the caller's dictionary lists them. */
  type Params = seq<(string, Json)>

  predicate DistinctKeys(params: Params) {
    forall i, j :: 0 <= i < j < |params| ==> params[i].0 != params[j].0
  }

  /** The URL after replacing placeholders for `params[..n]`. */
  function ReplacePlaceholders(url: string, params: Params): string
    decreases |params|
  {
    if params == [] then url
    else
      var (key, value) := params[0];
      ReplacePlaceholders(ReplaceAll(url, "{" + key + "}", QuotePlus(PyStr(value))), params[1..])
  }

  /** `_build_url(params)`: each "{key}" in the template replaced by the encoded value, one parameter at a time. */
  method BuildUrl(targetUrl: string, params: Params) returns (url: string)
    ensures url == ReplacePlaceholders(targetUrl, params)
  {
    url := targetUrl;
    var i := 0;
    while i < |params|
      invariant 0 <= i <= |params|
      invariant ReplacePlaceholders(targetUrl, params) == ReplacePlaceholders(url, params[i..])
    {
      assert params[i..][1..] == params[i + 1..];
      var (key, value) := params[i];
      var encoded := QuotePlus(PyStr(value));
      url := ReplaceAll(url, "{" + key + "}", encoded);
      i := i + 1;
    }
  }

  predicate BraceFree(s: string) { '{' !in s && '}' !in s }

  lemma {:induction false} ReplaceNoBrace(s: string, pat: string, rep: string)
    requires pat != [] && pat[0] == '{' && '{' !in s
    ensures ReplaceAll(s, pat, rep) == s
  {
    if s != [] {
      ReplaceNoBrace(s[1..], pat, rep);
      assert [s[0]] + s[1..] == s;
    }
  }

  lemma {:induction false} ReplaceAfterNoBrace(a: string, t: string, pat: string, rep: string)
    requires pat != [] && pat[0] == '{' && '{' !in a
    ensures ReplaceAll(a + t, pat, rep) == a + ReplaceAll(t, pat, rep)
  {
    if a != [] {
      assert (a + t)[1..] == a[1..] + t;
      ReplaceAfterNoBrace(a[1..], t, pat, rep);
    } else {
      assert a + t == t;
    }
  }

  /** With brace-free keys, "{j}" is not a prefix of "{k}" followed by more text, unless j == k. */
  lemma OtherKeyNoPrefix(k: string, j: string, b: string)
    requires BraceFree(k) && BraceFree(j) && j != k
    ensures !StartsWith("{" + k + "}" + b, "{" + j + "}")
  {
    var s := "{" + k + "}" + b;
    var pat := "{" + j + "}";
    if |pat| <= |s| {
      if |j| < |k| {
        assert s[|j| + 1] != pat[|j| + 1];
      } else if |j| > |k| {
        assert s[|k| + 1] != pat[|k| + 1];
      } else {
        assert exists m :: 0 <= m < |k| && k[m] != j[m];
        var m :| 0 <= m < |k| && k[m] != j[m];
        assert s[m + 1] != pat[m + 1];
      }
    }
  }

  /** Replacing another key's placeholder leaves "{k}" followed by brace-free text alone. */
  lemma OtherPlaceholderAbsent(k: string, j: string, b: string, e: string)
    requires BraceFree(k) && BraceFree(j) && j != k && '{' !in b
    ensures ReplaceAll("{" + k + "}" + b, "{" + j + "}", e) == "{" + k + "}" + b
  {
    var s := "{" + k + "}" + b;
    OtherKeyNoPrefix(k, j, b);
    assert s[1..] == k + "}" + b;
    ReplaceNoBrace(s[1..], "{" + j + "}", e);
    assert [s[0]] + s[1..] == s;
  }

  /**
   * A template with one "{key}" placeholder, whose key is supplied, comes
   * out with the encoded value in its place and nothing else changed.
   */
  lemma {:induction false} BuildUrlFillsPlaceholder(a: string, k: string, b: string, params: Params, v: Json)
    requires '{' !in a && '{' !in b && BraceFree(k)
    requires DistinctKeys(params) && forall i :: 0 <= i < |params| ==> BraceFree(params[i].0)
    requires (k, v) in params
    ensures ReplacePlaceholders(a + "{" + k + "}" + b, params) == a + QuotePlus(PyStr(v)) + b
  {
    var i :| 0 <= i < |params| && params[i] == (k, v);
    FillFrom(a, k, b, params, v, i);
  }

  lemma {:induction false} FillFrom(a: string, k: string, b: string, params: Params, v: Json, i: nat)
    requires '{' !in a && '{' !in b && BraceFree(k)
    requires DistinctKeys(params) && forall m :: 0 <= m < |params| ==> BraceFree(params[m].0)
    requires i < |params| && params[i] == (k, v)
    ensures ReplacePlaceholders(a + "{" + k + "}" + b, params) == a + QuotePlus(PyStr(v)) + b
    decreases |params|
  {
    var (key, value) := params[0];
    var e0 := QuotePlus(PyStr(value));
    var t := a + "{" + k + "}" + b;
    assert ReplacePlaceholders(t, params) == ReplacePlaceholders(ReplaceAll(t, "{" + key + "}", e0), params[1..]);
    if i == 0 {
      FillHere(a, k, b, e0);
      NoPlaceholderLeft(a + e0 + b, params[1..]);
    } else {
      FillOther(a, k, b, key, e0);
      assert params[1..][i - 1] == (k, v);
      FillFrom(a, k, b, params[1..], v, i - 1);
    }
  }

  lemma FillHere(a: string, k: string, b: string, e: string)
    requires '{' !in a && '{' !in b && forall m :: 0 <= m < |e| ==> EncodedChar(e[m])
    ensures ReplaceAll(a + "{" + k + "}" + b, "{" + k + "}", e) == a + e + b
    ensures '{' !in a + e + b
  {
    var u := "{" + k + "}" + b;
    assert a + "{" + k + "}" + b == a + u;
    ReplaceAfterNoBrace(a, u, "{" + k + "}", e);
    ReplaceAtHead(k, b, e);
    assert '{' !in e;
  }

  lemma ReplaceAtHead(k: string, b: string, e: string)
    requires '{' !in b
    ensures ReplaceAll("{" + k + "}" + b, "{" + k + "}", e) == e + b
  {
    var pat := "{" + k + "}";
    var u := pat + b;
    assert u[..|pat|] == pat;
    assert u[|pat|..] == b;
    ReplaceNoBrace(b, pat, e);
  }

  lemma FillOther(a: string, k: string, b: string, j: string, e: string)
    requires '{' !in a && '{' !in b && BraceFree(k) && BraceFree(j) && j != k
    ensures ReplaceAll(a + "{" + k + "}" + b, "{" + j + "}", e) == a + "{" + k + "}" + b
  {
    var u := "{" + k + "}" + b;
    assert a + "{" + k + "}" + b == a + u;
    ReplaceAfterNoBrace(a, u, "{" + j + "}", e);
    OtherPlaceholderAbsent(k, j, b, e);
  }

  /** Once no '{' is left, the remaining parameters change nothing. */
  lemma {:induction false} NoPlaceholderLeft(s: string, params: Params)
    requires '{' !in s
    ensures ReplacePlaceholders(s, params) == s
    decreases |params|
  {
    if params != [] {
      var (key, value) := params[0];
      ReplaceNoBrace(s, "{" + key + "}", QuotePlus(PyStr(value)));
      NoPlaceholderLeft(s, params[1..]);
    }
  }

  /** `_build_params`: the parameters named in the blueprint's `dynamicParams`, in order. */
  function BuildParams(params: Params, dynamicParams: seq<string>): (r: Params)
    ensures forall p :: p in r <==> p in params && p.0 in dynamicParams
    ensures |r| <= |params|
  {
    if params == [] then []
    else (if params[0].0 in dynamicParams then [params[0]] else []) + BuildParams(params[1..], dynamicParams)
  }

  /** The parameters as a dictionary. */
  function ParamMap(params: Params): (m: map<string, Json>)
    ensures m.Keys == set p | p in params :: p.0
  {
    if params == [] then map[]
    else ParamMap(params[..|params| - 1])[params[|params| - 1].0 := params[|params| - 1].1]
  }

  /** A body value "{k}" whose key `k` is among the parameters. */
  predicate Placeholder(value: Json, params: map<string, Json>) {
    value.JStr? && StartsWith(value.s, "{") && EndsWith(value.s, "}") && |value.s| >= 2
    && value.s[1..|value.s| - 1] in params
  }

  /**
   * `_merge_params_into_body(body, params)` on the deep copy the caller made:
   * a dictionary value that is a "{k}" string with `k` supplied becomes
   * `params[k]`; other non-string dictionary values and every list item are
   * visited recursively; strings in lists stay as they are.
   */
  function Merge(body: Json, params: map<string, Json>): Json
    decreases body, 0
  {
    match body
    case JObj(fields) =>
      JObj(map key | key in fields :: MergeValue(fields[key], params))
    case JList(items) =>
      JList(seq(|items|, i requires 0 <= i < |items| => Merge(items[i], params)))
    case _ => body
  }

  function MergeValue(value: Json, params: map<string, Json>): Json
    decreases value, 1
  {
    if value.JStr? && StartsWith(value.s, "{") && EndsWith(value.s, "}") then
      (if Placeholder(value, params) then params[value.s[1..|value.s| - 1]] else value)
    else Merge(value, params)
  }

  /** No dictionary value anywhere in `j` is a placeholder for a supplied parameter. */
  predicate Settled(j: Json, params: map<string, Json>) {
    match j
    case JObj(fields) => forall key | key in fields :: !Placeholder(fields[key], params) && Settled(fields[key], params)
    case JList(items) => forall i | 0 <= i < |items| :: Settled(items[i], params)
    case _ => true
  }

  /** Merging touches nothing in a body that holds no supplied placeholder. */
  lemma {:induction false} MergeSettledIdentity(body: Json, params: map<string, Json>)
    requires Settled(body, params)
    ensures Merge(body, params) == body
    decreases body
  {
    match body
    case JObj(fields) =>
      forall key | key in fields ensures MergeValue(fields[key], params) == fields[key] {
        MergeSettledIdentity(fields[key], params);
      }
      assert (map key | key in fields :: MergeValue(fields[key], params)) == fields;
    case JList(items) =>
      forall i | 0 <= i < |items| ensures Merge(items[i], params) == items[i] {
        MergeSettledIdentity(items[i], params);
      }
      assert seq(|items|, i requires 0 <= i < |items| => Merge(items[i], params)) == items;
    case _ =>
  }

  /**
   * When the parameter values are themselves settled, no placeholder for a
   * supplied parameter survives a merge.
   */
  lemma {:induction false} MergeSettles(body: Json, params: map<string, Json>)
    requires forall key | key in params :: !Placeholder(params[key], params) && Settled(params[key], params)
    ensures Settled(Merge(body, params), params)
    decreases body
  {
    match body
    case JObj(fields) =>
      var merged := map key | key in fields :: MergeValue(fields[key], params);
      forall key | key in merged ensures !Placeholder(merged[key], params) && Settled(merged[key], params) {
        var value := fields[key];
        if value.JStr? && StartsWith(value.s, "{") && EndsWith(value.s, "}") {
        } else {
          MergeSettles(value, params);
          assert !Placeholder(Merge(value, params), params) by {
            if !value.JObj? && !value.JList? {
              assert Merge(value, params) == value;
            }
          }
        }
      }
    case JList(items) =>
      forall i | 0 <= i < |items| ensures Settled(Merge(items[i], params), params) {
        MergeSettles(items[i], params);
      }
    case _ =>
  }

  /** `_build_body` applied to its own output changes nothing once the parameter values are settled. */
  lemma MergeIdempotent(body: Json, params: map<string, Json>)
    requires forall key | key in params :: !Placeholder(params[key], params) && Settled(params[key], params)
    ensures Merge(Merge(body, params), params) == Merge(body, params)
  {
    MergeSettles(body, params);
    MergeSettledIdentity(Merge(body, params), params);
  }

  /** Without parameters the body comes back unchanged. */
  lemma MergeNoParams(body: Json)
    ensures Merge(body, map[]) == body
  {
    assert Settled(body, map[]) by { NothingIsPlaceholder(body); }
    MergeSettledIdentity(body, map[]);
  }

  lemma {:induction false} NothingIsPlaceholder(j: Json)
    ensures Settled(j, map[])
    decreases j
  {
    match j
    case JObj(fields) =>
      forall key | key in fields ensures Settled(fields[key], map[]) { NothingIsPlaceholder(fields[key]); }
    case JList(items) =>
      forall i | 0 <= i < |items| ensures Settled(items[i], map[]) { NothingIsPlaceholder(items[i]); }
    case _ =>
  }

  /** A supplied placeholder directly under a dictionary key becomes the parameter's value. */
  lemma MergeFillsPlaceholder(fields: map<string, Json>, key: string, p: string, params: map<string, Json>)
    requires key in fields && fields[key] == JStr("{" + p + "}") && p in params
    ensures Merge(JObj(fields), params).fields[key] == params[p]
  {
    var v := fields[key];
    assert v.s[1..|v.s| - 1] == p;
    assert Placeholder(v, params);
  }

  /** `_build_body`: the parameters themselves when the blueprint has no (or an empty) body, else the merged copy. */
  function BuildBody(body: Json, params: Params): (r: Json)
    ensures !body.Truthy() ==> r == JObj(ParamMap(params))
    ensures body.JObj? && body.Truthy() ==> r.JObj? && r.fields.Keys == body.fields.Keys
  {
    if !body.Truthy() then JObj(ParamMap(params)) else Merge(body, ParamMap(params))
  }
}
