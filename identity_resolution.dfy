/**
 * Identity resolution (scrapegoat/app/enrichment/identity_resolution.py):
 * turning a raw lead's name and location text into first name, last name,
 * city, two-letter state and ZIP code.
 *
 * The regular expressions of the source are written out as predicates on
 * the part of the string a match would cover. `re.sub` with a pattern that
 * ends in `$` removes the suffix starting at the leftmost position where
 * the rest of the string matches; `$` may also match just before one final
 * newline, which then survives the substitution.
 */
module IdentityResolution {
  import opened Wrappers
  import opened Text
  import opened Json

  // ---------------------------------------------------------------------
  // End-anchored patterns and their substitution
  // ---------------------------------------------------------------------

  /** Lower-case forms of the credentials and generational suffixes `clean_name` drops. */
  const Credentials: seq<string> := ["phd", "ph.d", "md", "m.d", "mba", "cpa", "esq", "jr", "sr", "iii", "ii", "iv"]

  predicate IsCredential(w: string) { w in Credentials }

  /** `\s*(PhD|...|IV)\.?` matching all of `u`, ignoring case. */
  predicate CredentialTail(u: string) {
    var w := Lower(LStrip(u));
    IsCredential(w) || (w != [] && w[|w| - 1] == '.' && IsCredential(w[..|w| - 1]))
  }

  /** `\s*.+` matching all of `v`: leading whitespace, then one non-empty line. */
  predicate SpacesThenLine(v: string) {
    exists k :: 0 <= k < |v| && (forall m :: 0 <= m < k ==> IsSpace(v[m])) && '\n' !in v[k..]
  }

  /** The end-anchored patterns of `clean_name` and `parse_location`. */
  datatype SuffixPattern =
    | Credential     // ,?\s*(PhD|Ph\.D|MD|M\.D|MBA|CPA|Esq|Jr|Sr|III|II|IV)\.?$  (ignoring case)
    | Parenthetical  // \s*\([^)]+\)$
    | Trailer        // \s*[\|\-]\s*.+$
    | UnitedStates   // ,\s*United\s+States$  (ignoring case)

  /** Whether pattern `p`, without its `$`, matches all of `t`. */
  predicate Matches(p: SuffixPattern, t: string) {
    match p
    case Credential =>
      CredentialTail(t) || (t != [] && t[0] == ',' && CredentialTail(t[1..]))
    case Parenthetical =>
      var u := LStrip(t);
      |u| >= 3 && u[0] == '(' && u[|u| - 1] == ')' && ')' !in u[1..|u| - 1]
    case Trailer =>
      var u := LStrip(t);
      u != [] && (u[0] == '|' || u[0] == '-') && SpacesThenLine(u[1..])
    case UnitedStates =>
      t != [] && t[0] == ',' &&
      var u := LStrip(t[1..]);
      |u| >= 6 && Lower(u[..6]) == "united" &&
      var v := u[6..];
      v != [] && IsSpace(v[0]) && Lower(LStrip(v)) == "states"
  }

  /** The least start position `i >= from` at which `p` matches the rest of `s`. */
  function FirstStart(s: string, p: SuffixPattern, from: nat): (r: Option<nat>)
    requires from <= |s| + 1
    ensures r.Some? ==> from <= r.value <= |s| && Matches(p, s[r.value..])
    ensures r.Some? ==> forall j :: from <= j < r.value ==> !Matches(p, s[j..])
    ensures r.None? ==> forall j :: from <= j <= |s| ==> !Matches(p, s[j..])
    decreases |s| + 1 - from
  {
    if from > |s| then None
    else if Matches(p, s[from..]) then Some(from)
    else
      var r := FirstStart(s, p, from + 1);
      assert r.Some? ==> forall j :: from <= j < r.value ==> !Matches(p, s[j..]) by {
        if r.Some? {
          forall j | from <= j < r.value ensures !Matches(p, s[j..]) {
            if j > from {}
          }
        }
      }
      assert r.None? ==> forall j :: from <= j <= |s| ==> !Matches(p, s[j..]) by {
        if r.None? {
          forall j | from <= j <= |s| ensures !Matches(p, s[j..]) {
            if j > from {}
          }
        }
      }
      r
  }

  /** The part of `s` that `$` sees the end of: `s` without one final newline. */
  function Body(s: string): string {
    if s != [] && s[|s| - 1] == '\n' then s[..|s| - 1] else s
  }

  /**
   * `re.sub(p + '$', '', s)`: the suffix matched from the leftmost possible
   * start is removed; a final newline, which `$` may stand before, is kept.
   */
  function SubAtEnd(s: string, p: SuffixPattern): (r: string)
    ensures |r| <= |s|
    ensures FirstStart(Body(s), p, 0).None? ==> r == s
    ensures FirstStart(Body(s), p, 0).Some? ==>
              r == Body(s)[..FirstStart(Body(s), p, 0).value] + s[|Body(s)|..]
  {
    var body := Body(s);
    match FirstStart(body, p, 0)
    case None => s
    case Some(i) => body[..i] + s[|body|..]
  }

  // ---------------------------------------------------------------------
  // clean_name
  // ---------------------------------------------------------------------

  const NamePatterns: seq<SuffixPattern> := [Credential, Parenthetical, Trailer]

  /** The loop over the suffix patterns: each substitution applied to the previous result. */
  function RemoveSuffixes(s: string, patterns: seq<SuffixPattern>): (r: string)
    ensures |r| <= |s|
    decreases |patterns|
  {
    if patterns == [] then s
    else RemoveSuffixes(SubAtEnd(s, patterns[0]), patterns[1..])
  }

  /** Trimmed, with whitespace only as single ' ' between words. */
  predicate SingleSpaced(s: string) {
    && (s == [] || (s[0] != ' ' && s[|s| - 1] != ' '))
    && (forall i :: 0 <= i < |s| ==> !IsSpace(s[i]) || s[i] == ' ')
    && (forall i :: 0 <= i < |s| - 1 ==> !(s[i] == ' ' && s[i + 1] == ' '))
  }

  lemma JoinHead(ws: seq<string>)
    requires ws != [] && ws[0] != []
    ensures Join(ws, " ") != [] && Join(ws, " ")[0] == ws[0][0]
  {
  }

  lemma {:induction false} JoinLast(ws: seq<string>)
    requires ws != [] && ws[|ws| - 1] != []
    ensures Join(ws, " ") != [] && Join(ws, " ")[|Join(ws, " ")| - 1] == ws[|ws| - 1][|ws[|ws| - 1]| - 1]
  {
    if |ws| > 1 {
      JoinLast(ws[1..]);
    }
  }

  /** Words joined by single spaces are single-spaced. */
  lemma {:induction false} JoinWordsSingleSpaced(ws: seq<string>)
    requires forall k :: 0 <= k < |ws| ==> ws[k] != [] && NoSpace(ws[k])
    ensures SingleSpaced(Join(ws, " "))
  {
    if |ws| > 1 {
      JoinWordsSingleSpaced(ws[1..]);
      var rest := Join(ws[1..], " ");
      var j := ws[0] + " " + rest;
      JoinHead(ws[1..]);
      JoinLast(ws[1..]);
      assert j[0] == ws[0][0];
      assert j[|j| - 1] == rest[|rest| - 1];
      forall i | 0 <= i < |j| ensures !IsSpace(j[i]) || j[i] == ' ' {
        if i < |ws[0]| {
        } else if i > |ws[0]| {
          assert j[i] == rest[i - |ws[0]| - 1];
        }
      }
      forall i | 0 <= i < |j| - 1 ensures !(j[i] == ' ' && j[i + 1] == ' ') {
        if i < |ws[0]| {
        } else if i == |ws[0]| {
          assert j[i + 1] == rest[0];
        } else {
          assert j[i] == rest[i - |ws[0]| - 1];
        }
      }
    }
  }

  /** Stripping a single-spaced string changes nothing. */
  lemma StripSingleSpaced(s: string)
    requires SingleSpaced(s)
    ensures Strip(s) == s
  {
    if s != [] {
      assert !IsSpace(s[0]);
      assert LStrip(s) == s;
      assert !IsSpace(s[|s| - 1]);
    }
  }

  /**
   * `clean_name(name)`: trim, drop a credential suffix, a parenthetical
   * and a "| ..."/"- ..." trailer, then collapse whitespace runs.
   */
  function CleanName(name: string): (r: string)
    ensures name == [] ==> r == []
    ensures SingleSpaced(r)
  {
    if name == [] then ""
    else
      var core := RemoveSuffixes(Strip(name), NamePatterns);
      var ws := Words(core);
      WordsAreWords(core);
      JoinWordsSingleSpaced(ws);
      StripSingleSpaced(Join(ws, " "));
      Strip(Join(ws, " "))
  }

  // ---------------------------------------------------------------------
  // parse_name
  // ---------------------------------------------------------------------

  /** `parse_name(name)`: the first word, and the remaining words joined by single spaces. */
  function ParseName(name: string): (r: (string, string))
    ensures |Words(name)| == 0 ==> r == ("", "")
    ensures |Words(name)| == 1 ==> r == (Words(name)[0], "")
    ensures |Words(name)| >= 2 ==> r == (Words(name)[0], Join(Words(name)[1..], " "))
  {
    if name == [] then ("", "")
    else
      var parts := Words(Strip(name));
      WordsOfStrip(name);
      if |parts| == 0 then ("", "")
      else if |parts| == 1 then (parts[0], "")
      else if |parts| == 2 then
        assert Join(parts[1..], " ") == parts[1];
        (parts[0], parts[1])
      else (parts[0], Join(parts[1..], " "))
  }

  /** `str.split()` ignores surrounding whitespace. */
  lemma WordsOfStrip(s: string)
    ensures Words(Strip(s)) == Words(s)
  {
    WordsOfLStrip(s);
    WordsOfRStrip(LStrip(s));
  }

  lemma WordsOfLStrip(s: string)
    ensures Words(LStrip(s)) == Words(s)
  {
    assert LStrip(LStrip(s)) == LStrip(s);
  }

  lemma {:induction false} WordsOfRStrip(s: string)
    ensures Words(RStrip(s)) == Words(s)
    decreases |s|
  {
    if s != [] && IsSpace(s[|s| - 1]) {
      WordsDropTrailingSpace(s);
      WordsOfRStrip(s[..|s| - 1]);
    }
  }

  lemma {:induction false} WordsDropTrailingSpace(s: string)
    requires s != [] && IsSpace(s[|s| - 1])
    ensures Words(s[..|s| - 1]) == Words(s)
    decreases |s|
  {
    var s' := s[..|s| - 1];
    var t := LStrip(s);
    LStripDropLast(s);
    LStripSuffix(s);
    if t == [] {
      assert Words(s) == [];
      assert Words(s') == [];
    } else {
      var t' := t[..|t| - 1];
      assert LStrip(s') == t';
      assert t[|t| - 1] == s[|s| - 1];
      var n := WordLen(t);
      LeadingWord(t);
      assert n < |t| by {
        assert IsSpace(t[|t| - 1]);
      }
      WordLenPrefix(t, |t| - 1);
      assert t' != [] && WordLen(t') == n;
      assert !IsSpace(t'[0]);
      DropLastSlices(t, n);
      var rest := t[n..];
      assert rest != [] && IsSpace(rest[|rest| - 1]);
      WordsDropTrailingSpace(rest);
      calc {
        Words(s');
        { WordsUnfold(s'); }
        [t'[..n]] + Words(t'[n..]);
        [t[..n]] + Words(rest[..|rest| - 1]);
        [t[..n]] + Words(rest);
        { WordsUnfold(s); }
        Words(s);
      }
    }
  }

  /** `split()` of a text with a word: that word, then the words after it. */
  lemma WordsUnfold(s: string)
    requires LStrip(s) != []
    ensures var t := LStrip(s);
            Words(s) == [t[..WordLen(t)]] + Words(t[WordLen(t)..])
  {
  }

  lemma DropLastSlices(t: string, n: nat)
    requires n < |t|
    ensures t[..|t| - 1][..n] == t[..n]
    ensures t[..|t| - 1][n..] == t[n..][..|t[n..]| - 1]
  {
  }

  lemma {:induction false} LStripDropLast(s: string)
    requires s != [] && IsSpace(s[|s| - 1])
    ensures LStrip(s) == [] ==> LStrip(s[..|s| - 1]) == []
    ensures LStrip(s) != [] ==> LStrip(s[..|s| - 1]) == LStrip(s)[..|LStrip(s)| - 1]
    decreases |s|
  {
    if IsSpace(s[0]) && |s| > 1 {
      assert s[1..][..|s[1..]| - 1] == s[..|s| - 1][1..];
      LStripDropLast(s[1..]);
    }
  }

  lemma {:induction false} WordLenPrefix(t: string, k: nat)
    requires WordLen(t) <= k <= |t|
    ensures WordLen(t[..k]) == WordLen(t)
    decreases |t|
  {
    if t != [] && !IsSpace(t[0]) {
      assert t[..k][1..] == t[1..][..k - 1];
      WordLenPrefix(t[1..], k - 1);
    }
  }

  /** Two or more words: first + " " + last is the name with its whitespace runs collapsed. */
  lemma ParseNameRejoins(name: string)
    requires |Words(name)| >= 2
    ensures ParseName(name).0 + " " + ParseName(name).1 == Join(Words(name), " ")
  {
  }

  // ---------------------------------------------------------------------
  // normalize_state
  // ---------------------------------------------------------------------

  const StateAbbreviations: map<string, string> := map[
    "alabama" := "AL", "alaska" := "AK", "arizona" := "AZ", "arkansas" := "AR",
    "california" := "CA", "colorado" := "CO", "connecticut" := "CT", "delaware" := "DE",
    "florida" := "FL", "georgia" := "GA", "hawaii" := "HI", "idaho" := "ID",
    "illinois" := "IL", "indiana" := "IN", "iowa" := "IA", "kansas" := "KS",
    "kentucky" := "KY", "louisiana" := "LA", "maine" := "ME", "maryland" := "MD",
    "massachusetts" := "MA", "michigan" := "MI", "minnesota" := "MN", "mississippi" := "MS",
    "missouri" := "MO", "montana" := "MT", "nebraska" := "NE", "nevada" := "NV",
    "new hampshire" := "NH", "new jersey" := "NJ", "new mexico" := "NM", "new york" := "NY",
    "north carolina" := "NC", "north dakota" := "ND", "ohio" := "OH", "oklahoma" := "OK",
    "oregon" := "OR", "pennsylvania" := "PA", "rhode island" := "RI", "south carolina" := "SC",
    "south dakota" := "SD", "tennessee" := "TN", "texas" := "TX", "utah" := "UT",
    "vermont" := "VT", "virginia" := "VA", "washington" := "WA", "west virginia" := "WV",
    "wisconsin" := "WI", "wyoming" := "WY", "district of columbia" := "DC"
  ]

  /** `state_abbreviations.get(key, default)`. */
  function LookupState(key: string, default: string): string {
    if key in StateAbbreviations then StateAbbreviations[key] else default
  }

  /** `re.match(r'^[A-Z]{2}$', s)`: two capitals, optionally followed by one newline. */
  predicate TwoCapitals(s: string) {
    (|s| == 2 || (|s| == 3 && s[2] == '\n')) && IsUpper(s[0]) && IsUpper(s[1])
  }

  /**
   * `normalize_state(state)`: an abbreviation is kept; a full name, in any
   * case and with surrounding whitespace, is looked up; anything else gives
   * its first two characters upper-cased, or itself when shorter.
   */
  function NormalizeState(state: string): (r: string)
    ensures TwoCapitals(state) ==> r == state
    ensures !TwoCapitals(state) ==>
              r == LookupState(Strip(Lower(state)), if |state| >= 2 then Upper(state)[..2] else state)
  {
    if TwoCapitals(state) then
      UpperNoLower(state);
      Upper(state)
    else LookupState(Strip(Lower(state)), if |state| >= 2 then Upper(state)[..2] else state)
  }

  /** Anything that is neither an abbreviation nor a state name gives at most two characters. */
  lemma NormalizeStateShort(state: string)
    requires !TwoCapitals(state) && Strip(Lower(state)) !in StateAbbreviations
    ensures |state| >= 2 ==> NormalizeState(state) == Upper(state[..2])
    ensures |state| < 2 ==> NormalizeState(state) == state
  {
  }

  /** A state name in capitals, with spaces around it, gives its abbreviation. */
  lemma StateNameAnyCase(name: string, pre: string, post: string)
    requires name in StateAbbreviations && |name| >= 4
    requires forall i :: 0 <= i < |name| ==> IsLower(name[i]) || name[i] == ' '
    requires name != [] && name[0] != ' ' && name[|name| - 1] != ' '
    requires forall i :: 0 <= i < |pre| ==> pre[i] == ' '
    requires forall i :: 0 <= i < |post| ==> post[i] == ' '
    ensures NormalizeState(pre + Upper(name) + post) == StateAbbreviations[name]
  {
    var s := pre + Upper(name) + post;
    LowerUpperName(name);
    assert Lower(s) == pre + name + post by {
      LowerNoUpper(pre);
      LowerNoUpper(post);
      LowerAppend(pre, Upper(name));
      LowerAppend(pre + Upper(name), post);
    }
    LStripSpaces(pre, name + post);
    assert pre + name + post == pre + (name + post);
    RStripSpaces(name, post);
    assert Strip(Lower(s)) == name;
    assert !TwoCapitals(s) by {
      if TwoCapitals(s) {
        NotTwoCapitals(name, pre, post);
      }
    }
  }

  lemma NotTwoCapitals(name: string, pre: string, post: string)
    requires |name| >= 4
    requires forall i :: 0 <= i < |name| ==> IsLower(name[i]) || name[i] == ' '
    requires forall i :: 0 <= i < |pre| ==> pre[i] == ' '
    ensures !TwoCapitals(pre + Upper(name) + post)
  {
    var s := pre + Upper(name) + post;
    if |pre| > 0 {
      assert s[0] == ' ';
    } else {
      assert |s| >= 4;
    }
  }

  lemma LowerUpperName(name: string)
    requires forall i :: 0 <= i < |name| ==> IsLower(name[i]) || name[i] == ' '
    ensures Lower(Upper(name)) == name
  {
  }

  lemma LowerAppend(a: string, b: string)
    ensures Lower(a + b) == Lower(a) + Lower(b)
  {
  }

  lemma {:induction false} LStripSpaces(p: string, t: string)
    requires (forall i :: 0 <= i < |p| ==> p[i] == ' ') && t != [] && !IsSpace(t[0])
    ensures LStrip(p + t) == t
    decreases |p|
  {
    if p != [] {
      assert (p + t)[0] == ' ' && (p + t)[1..] == p[1..] + t;
      assert LStrip(p + t) == LStrip(p[1..] + t);
      LStripSpaces(p[1..], t);
    } else {
      assert p + t == t;
      assert LStrip(t) == t;
    }
  }

  lemma {:induction false} RStripSpaces(t: string, p: string)
    requires (forall i :: 0 <= i < |p| ==> p[i] == ' ') && t != [] && !IsSpace(t[|t| - 1])
    ensures RStrip(t + p) == t
    decreases |p|
  {
    if p != [] {
      assert (t + p)[..|t + p| - 1] == t + p[..|p| - 1];
      RStripSpaces(t, p[..|p| - 1]);
    } else {
      assert t + p == t;
    }
  }

  // ---------------------------------------------------------------------
  // parse_location
  // ---------------------------------------------------------------------

  /** `\b\d{5}\b` at position `i`. */
  predicate ZipAt(s: string, i: nat) {
    i + 5 <= |s| && AllDigits(s[i..i + 5])
    && (i == 0 || !IsWordChar(s[i - 1]))
    && (i + 5 == |s| || !IsWordChar(s[i + 5]))
  }

  /** `re.search(r'\b(\d{5})\b', s)` from position `i`: the first standalone five-digit run, or "". */
  function FirstZip(s: string, i: nat): (r: string)
    ensures r == [] || (|r| == 5 && AllDigits(r))
    decreases |s| - i
  {
    if i + 5 > |s| then ""
    else if ZipAt(s, i) then s[i..i + 5]
    else FirstZip(s, i + 1)
  }

  /** The ZIP code found is the run at the first position where one stands, and "" when none does. */
  lemma {:induction false} FirstZipIsFirst(s: string, i: nat) returns (j: nat)
    ensures FirstZip(s, i) != [] ==> i <= j && ZipAt(s, j) && FirstZip(s, i) == s[j..j + 5]
                                     && forall m :: i <= m < j ==> !ZipAt(s, m)
    ensures FirstZip(s, i) == [] ==> forall m :: i <= m ==> !ZipAt(s, m)
    decreases |s| - i
  {
    if i + 5 > |s| {
      j := i;
    } else if ZipAt(s, i) {
      j := i;
    } else {
      j := FirstZipIsFirst(s, i + 1);
    }
  }

  /** `re.sub(r'\b\d{5}\b', '', s)` from position `i`: every standalone five-digit run removed. */
  function RemoveZips(s: string, i: nat): (r: string)
    requires i <= |s|
    ensures |r| <= |s| - i
    decreases |s| - i
  {
    if i == |s| then ""
    else if ZipAt(s, i) then RemoveZips(s, i + 5)
    else [s[i]] + RemoveZips(s, i + 1)
  }

  /** Without digits there is no ZIP code to find or remove. */
  lemma {:induction false} NoDigitsNoZip(s: string, i: nat)
    requires i <= |s| && forall j :: i <= j < |s| ==> !IsDigit(s[j])
    ensures RemoveZips(s, i) == s[i..]
    ensures FirstZip(s, i) == ""
    decreases |s| - i
  {
    if i < |s| {
      assert !ZipAt(s, i) by { if i + 5 <= |s| { assert !IsDigit(s[i..i + 5][0]); } }
      NoDigitsNoZip(s, i + 1);
      assert s[i..] == [s[i]] + s[i + 1..];
    }
  }

  /** `re.search(r'\b([A-Z]{2})\b', s)` from position `i`: the first standalone pair of capitals. */
  function FirstCapitalPair(s: string, i: nat): (r: Option<string>)
    ensures r.Some? ==> |r.value| == 2 && IsUpper(r.value[0]) && IsUpper(r.value[1])
    decreases |s| - i
  {
    if i + 2 > |s| then None
    else if IsUpper(s[i]) && IsUpper(s[i + 1]) && (i == 0 || !IsWordChar(s[i - 1]))
            && (i + 2 == |s| || !IsWordChar(s[i + 2]))
    then Some(s[i..i + 2])
    else FirstCapitalPair(s, i + 1)
  }

  /** `[p.strip() for p in parts]`. */
  function StripAll(parts: seq<string>): (r: seq<string>)
    ensures |r| == |parts| && forall k :: 0 <= k < |r| ==> r[k] == Strip(parts[k])
  {
    seq(|parts|, k requires 0 <= k < |parts| => Strip(parts[k]))
  }

  /** A parsed location: city, state and ZIP code. */
  datatype Location = Location(city: string, state: string, zipcode: string)

  /** The location text `parse_location` splits: no "United States" suffix, no ZIP codes, trimmed. */
  function LocationCore(location: string): string {
    var loc := SubAtEnd(location, UnitedStates);
    Strip(RemoveZips(loc, 0))
  }

  /**
   * `parse_location(location)`: with two or more comma-separated parts the
   * first is the city and the second the state; with one part a standalone
   * pair of capitals, if any, is the state and is cut out of the city.
   */
  function ParseLocation(location: string): (r: Location)
    ensures location == [] ==> r == Location("", "", "")
    ensures location != [] ==> r.zipcode == FirstZip(SubAtEnd(location, UnitedStates), 0)
    ensures location != [] && |Split(LocationCore(location), ',')| >= 2 ==>
              var parts := StripAll(Split(LocationCore(location), ','));
              r.city == parts[0] && r.state == NormalizeState(parts[1])
  {
    if location == [] then Location("", "", "")
    else
      var zipcode := FirstZip(SubAtEnd(location, UnitedStates), 0);
      var parts := StripAll(Split(LocationCore(location), ','));
      if |parts| >= 2 then Location(parts[0], NormalizeState(parts[1]), zipcode)
      else
        match FirstCapitalPair(parts[0], 0)
        case Some(state) =>
          Location(Strip(RStripChar(Strip(ReplaceAll(parts[0], state, "")), ',')), state, zipcode)
        case None => Location(parts[0], "", zipcode)
  }

  /** The country suffix is found only at the comma; elsewhere nothing starts with ','. */
  lemma CountryOnlyAtComma(city: string, rest: string, j: nat)
    requires ',' !in city && ',' !in rest && j <= |city + ", " + rest| && j != |city|
    ensures !Matches(UnitedStates, (city + ", " + rest)[j..])
  {
    var s := city + ", " + rest;
    if j < |s| {
      if j < |city| { assert s[j..][0] == city[j]; }
      else { assert s[j..][0] == s[j]; }
    }
  }

  /** `Strip` leaves a string that starts and ends with non-whitespace unchanged. */
  lemma StripEdges(s: string)
    requires s != [] && !IsSpace(s[0]) && !IsSpace(s[|s| - 1])
    ensures Strip(s) == s
  {
    assert LStrip(s) == s;
  }

  /** "City, State" has no country suffix, no ZIP code and no edge whitespace to remove. */
  lemma CityStateCore(city: string, state: string)
    requires city != [] && state != [] && Strip(city) == city && Strip(state) == state
    requires ',' !in city && ',' !in state
    requires forall i :: 0 <= i < |city| ==> !IsDigit(city[i])
    requires forall i :: 0 <= i < |state| ==> !IsDigit(state[i])
    requires !Matches(UnitedStates, ", " + state)
    ensures LocationCore(city + ", " + state) == city + ", " + state
    ensures FirstZip(SubAtEnd(city + ", " + state, UnitedStates), 0) == ""
  {
    var s := city + ", " + state;
    assert !IsSpace(s[|s| - 1]) by {
      assert s[|s| - 1] == state[|state| - 1];
    }
    CityStateNoCountry(city, state);
    CityStateNoDigit(city, state);
    NoDigitsNoZip(s, 0);
    assert s[0..] == s;
    assert s[0] == city[0];
    StripEdges(s);
  }

  lemma CityStateNoDigit(city: string, state: string)
    requires forall i :: 0 <= i < |city| ==> !IsDigit(city[i])
    requires forall i :: 0 <= i < |state| ==> !IsDigit(state[i])
    ensures forall j :: 0 <= j < |city + ", " + state| ==> !IsDigit((city + ", " + state)[j])
  {
    var s := city + ", " + state;
    forall j | 0 <= j < |s| ensures !IsDigit(s[j]) {
      if j >= |city| + 2 { assert s[j] == state[j - |city| - 2]; }
    }
  }

  /** "City, State" has no ", United States" suffix to remove. */
  lemma CityStateNoCountry(city: string, state: string)
    requires state != [] && !IsSpace(state[|state| - 1])
    requires ',' !in city && ',' !in state
    requires !Matches(UnitedStates, ", " + state)
    ensures SubAtEnd(city + ", " + state, UnitedStates) == city + ", " + state
  {
    var s := city + ", " + state;
    assert s[|s| - 1] == state[|state| - 1];
    assert Body(s) == s;
    forall j | 0 <= j <= |s| ensures !Matches(UnitedStates, s[j..]) {
      if j == |city| { assert s[j..] == ", " + state; } else { CountryOnlyAtComma(city, state, j); }
    }
  }

  lemma StripLeadingSpace(s: string)
    requires s != [] && Strip(s) == s
    ensures Strip(" " + s) == s
  {
    assert (" " + s)[1..] == s;
    assert LStrip(" " + s) == LStrip(s);
    StripEdges(s);
  }

  /** "City, State" splits into the city and the state with its leading space. */
  lemma CityStateSplit(city: string, state: string)
    requires ',' !in city && ',' !in state
    ensures Split(city + ", " + state, ',') == [city, " " + state]
  {
    assert city + ", " + state == city + [','] + (" " + state);
    SplitAppend(city, ',', " " + state);
    SplitNoSep(" " + state, ',');
  }

  /**
   * "City, State" with no digit or comma in either part, and a state part
   * that is not "United States", reads as that city, the normalised state
   * and no ZIP code.
   */
  lemma ParseCityState(city: string, state: string)
    requires city != [] && state != [] && Strip(city) == city && Strip(state) == state
    requires ',' !in city && ',' !in state
    requires forall i :: 0 <= i < |city| ==> !IsDigit(city[i])
    requires forall i :: 0 <= i < |state| ==> !IsDigit(state[i])
    requires !Matches(UnitedStates, ", " + state)
    ensures ParseLocation(city + ", " + state) == Location(city, NormalizeState(state), "")
  {
    var s := city + ", " + state;
    CityStateCore(city, state);
    CityStateSplit(city, state);
    StripLeadingSpace(state);
    var pieces := Split(LocationCore(s), ',');
    assert pieces == [city, " " + state];
    var parts := StripAll(pieces);
    assert |parts| == 2 && parts[0] == city && parts[1] == state;
    var r := ParseLocation(s);
    assert r.city == city && r.state == NormalizeState(state) && r.zipcode == "";
  }

  // ---------------------------------------------------------------------
  // resolve_identity
  // ---------------------------------------------------------------------

  /** `d.get(k, default)`. */
  function GetOr(d: map<string, Json>, k: string, default: Json): (r: Json)
    ensures k in d ==> r == d[k]
    ensures k !in d ==> r == default
  {
    if k in d then d[k] else default
  }

  /** The name fields, in the order they are tried. */
  function NameCandidates(lead: map<string, Json>): seq<Json> {
    [GetOr(lead, "name", JStr("")), GetOr(lead, "fullName", JStr("")),
     GetOr(lead, "Name", JStr("")), GetOr(lead, "full_name", JStr(""))]
  }

  /** "first last", trimmed, from `firstName`/`first_name` and `lastName`/`last_name`. */
  function FirstLast(lead: map<string, Json>): string {
    var first := OrChain([Get(lead, "firstName"), Get(lead, "first_name"), JStr("")]);
    var last := OrChain([Get(lead, "lastName"), Get(lead, "last_name"), JStr("")]);
    Strip(PyStr(first) + " " + PyStr(last))
  }

  /**
   * The raw name `resolve_identity` cleans: the first truthy name field,
   * else "first last". None when the chosen field is not a string, where
   * the source's `.strip()` raises.
   */
  function RawName(lead: map<string, Json>): (r: Option<string>)
    ensures !OrChain(NameCandidates(lead)).Truthy() ==> r == Some(FirstLast(lead))
    ensures OrChain(NameCandidates(lead)).JStr? && OrChain(NameCandidates(lead)).Truthy() ==>
              r == Some(OrChain(NameCandidates(lead)).s)
  {
    var chosen := OrChain(NameCandidates(lead));
    if chosen.Truthy() then (if chosen.JStr? then Some(chosen.s) else None)
    else Some(FirstLast(lead))
  }

  /** The dictionary `resolve_identity` returns, one field per key. */
  datatype Identity = Identity(
    firstName: string, lastName: string, fullName: string,
    city: string, state: string, zipcode: string,
    company: Json, title: Json, linkedinUrl: Json, platform: Json, email: Json)

  /**
   * `resolve_identity(lead_data)`: the structured identity, or None where
   * the source raises (a name or location field that is truthy but not a
   * string).
   */
  function ResolveIdentity(lead: map<string, Json>): (r: Option<Identity>)
    ensures r.Some? <==> RawName(lead).Some? && (var l := GetOr(lead, "location", JStr("")); !l.Truthy() || l.JStr?)
    ensures r.Some? ==> r.value.fullName == CleanName(RawName(lead).value) && SingleSpaced(r.value.fullName)
    ensures r.Some? ==> (r.value.firstName, r.value.lastName) == ParseName(r.value.fullName)
    ensures r.Some? ==> r.value.platform == GetOr(lead, "platform", JStr("linkedin")) && r.value.email == Get(lead, "email")
  {
    var location := GetOr(lead, "location", JStr(""));
    match RawName(lead)
    case None => None
    case Some(raw) =>
      if location.Truthy() && !location.JStr? then None
      else
        var name := CleanName(raw);
        var (firstName, lastName) := ParseName(name);
        var loc := if location.JStr? then ParseLocation(location.s) else Location("", "", "");
        Some(Identity(firstName, lastName, name, loc.city, loc.state, loc.zipcode,
                      GetOr(lead, "company", JStr("")), GetOr(lead, "title", JStr("")),
                      GetOr(lead, "linkedinUrl", JStr("")), GetOr(lead, "platform", JStr("linkedin")),
                      Get(lead, "email")))
  }

  /** The `name` field, when it is a non-empty string, is the one cleaned. */
  lemma NameFieldFirst(lead: map<string, Json>, s: string)
    requires "name" in lead && lead["name"] == JStr(s) && s != []
    ensures RawName(lead) == Some(s)
  {
    OrChainFirst(NameCandidates(lead), 0);
  }

  /** `fullName` is used only when `name` is missing or empty. */
  lemma FullNameSecond(lead: map<string, Json>, s: string)
    requires "name" !in lead || !lead["name"].Truthy()
    requires "fullName" in lead && lead["fullName"] == JStr(s) && s != []
    ensures RawName(lead) == Some(s)
  {
    OrChainFirst(NameCandidates(lead), 1);
  }

  /** Only when all four name fields are missing or empty are first and last name used. */
  lemma FirstLastFallback(lead: map<string, Json>, first: string, last: string)
    requires forall k :: k in ["name", "fullName", "Name", "full_name"] ==> k !in lead || !lead[k].Truthy()
    requires "firstName" in lead && lead["firstName"] == JStr(first) && first != []
    requires "lastName" in lead && lead["lastName"] == JStr(last) && last != []
    ensures RawName(lead) == Some(Strip(first + " " + last))
  {
    var c := NameCandidates(lead);
    assert forall i :: 0 <= i < 4 ==> !c[i].Truthy();
    OrChainFirst([Get(lead, "firstName"), Get(lead, "first_name"), JStr("")], 0);
    OrChainFirst([Get(lead, "lastName"), Get(lead, "last_name"), JStr("")], 0);
  }
}
