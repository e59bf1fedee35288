/**
 * ASCII string helpers that stand for the Python `str` methods and the small
 * regular expressions the enrichment code applies. Only ASCII is modelled:
 * `\d` is '0'..'9', `\w` is letters, digits and '_', and whitespace is the
 * set of ASCII characters for which Python's `str.isspace()` holds.
 */
module Text {
  import opened Wrappers

  predicate IsDigit(c: char) { '0' <= c <= '9' }
  predicate IsUpper(c: char) { 'A' <= c <= 'Z' }
  predicate IsLower(c: char) { 'a' <= c <= 'z' }
  predicate IsAlpha(c: char) { IsUpper(c) || IsLower(c) }
  predicate IsWordChar(c: char) { IsAlpha(c) || IsDigit(c) || c == '_' }
  predicate IsSpace(c: char) { c == ' ' || '\t' <= c <= '\r' || '\U{1c}' <= c <= '\U{1f}' }

  predicate AllDigits(s: string) { forall i :: 0 <= i < |s| ==> IsDigit(s[i]) }
  predicate NoSpace(s: string) { forall i :: 0 <= i < |s| ==> !IsSpace(s[i]) }

  function LowerChar(c: char): (r: char)
    ensures !IsUpper(r)
    ensures IsAlpha(c) <==> IsAlpha(r)
  {
    if IsUpper(c) then (c as int + 32) as char else c
  }

  function UpperChar(c: char): (r: char)
    ensures !IsLower(r)
    ensures IsAlpha(c) <==> IsAlpha(r)
  {
    if IsLower(c) then (c as int - 32) as char else c
  }

  /** `str.lower()` over ASCII. */
  function Lower(s: string): (r: string)
    ensures |r| == |s|
    ensures forall i :: 0 <= i < |s| ==> r[i] == LowerChar(s[i])
  {
    seq(|s|, i requires 0 <= i < |s| => LowerChar(s[i]))
  }

  /** `str.upper()` over ASCII. */
  function Upper(s: string): (r: string)
    ensures |r| == |s|
    ensures forall i :: 0 <= i < |s| ==> r[i] == UpperChar(s[i])
  {
    seq(|s|, i requires 0 <= i < |s| => UpperChar(s[i]))
  }

  /** Upper-casing leaves a string without lower-case letters unchanged. */
  lemma UpperNoLower(s: string)
    requires forall i :: 0 <= i < |s| ==> !IsLower(s[i])
    ensures Upper(s) == s
  {
  }

  /** Lower-casing leaves a string without upper-case letters unchanged. */
  lemma LowerNoUpper(s: string)
    requires forall i :: 0 <= i < |s| ==> !IsUpper(s[i])
    ensures Lower(s) == s
  {
  }

  predicate StartsWith(s: string, p: string) { |p| <= |s| && s[..|p|] == p }
  predicate EndsWith(s: string, p: string) { |p| <= |s| && s[|s| - |p|..] == p }

  /** Python's `sub in s`. */
  predicate Contains(s: string, sub: string)
    decreases |s|
  {
    StartsWith(s, sub) || (s != [] && Contains(s[1..], sub))
  }

  lemma {:induction false} ContainsAt(s: string, sub: string, i: nat)
    requires i + |sub| <= |s| && s[i..i + |sub|] == sub
    ensures Contains(s, sub)
    decreases i
  {
    if i > 0 {
      assert s[1..][i - 1..i - 1 + |sub|] == sub;
      ContainsAt(s[1..], sub, i - 1);
    }
  }

  lemma {:induction false} ContainsWitness(s: string, sub: string) returns (i: nat)
    requires Contains(s, sub)
    ensures i + |sub| <= |s| && s[i..i + |sub|] == sub
    decreases |s|
  {
    if StartsWith(s, sub) {
      i := 0;
    } else {
      var j := ContainsWitness(s[1..], sub);
      i := j + 1;
      assert s[i..i + |sub|] == s[1..][j..j + |sub|];
    }
  }

  /** A string without the first character of `sub` does not contain `sub`. */
  lemma AbsentHeadNotContained(s: string, sub: string)
    requires sub != [] && sub[0] !in s
    ensures !Contains(s, sub)
  {
    if Contains(s, sub) {
      var i := ContainsWitness(s, sub);
    }
  }

  /** A string never contains a longer one. */
  lemma {:induction false} ContainsLonger(s: string, sub: string)
    requires |s| < |sub|
    ensures !Contains(s, sub)
    decreases |s|
  {
    if s != [] {
      ContainsLonger(s[1..], sub);
    }
  }

  lemma ContainsInPrefix(s: string, t: string, sub: string)
    requires Contains(s, sub)
    ensures Contains(s + t, sub)
  {
    var i := ContainsWitness(s, sub);
    assert (s + t)[i..i + |sub|] == s[i..i + |sub|];
    ContainsAt(s + t, sub, i);
  }

  lemma ContainsInSuffix(s: string, t: string, sub: string)
    requires Contains(t, sub)
    ensures Contains(s + t, sub)
  {
    var i := ContainsWitness(t, sub);
    assert (s + t)[|s| + i..|s| + i + |sub|] == t[i..i + |sub|];
    ContainsAt(s + t, sub, |s| + i);
  }

  /** `str.lstrip()`: drop leading whitespace. */
  function LStrip(s: string): (r: string)
    ensures |r| <= |s|
    ensures r == [] || !IsSpace(r[0])
    ensures forall i :: 0 <= i < |s| - |r| ==> IsSpace(s[i])
  {
    if s != [] && IsSpace(s[0]) then LStrip(s[1..]) else s
  }

  /** What `lstrip` keeps is a suffix of its input. */
  lemma {:induction false} LStripSuffix(s: string)
    ensures LStrip(s) == s[|s| - |LStrip(s)|..]
    decreases |s|
  {
    if s != [] && IsSpace(s[0]) {
      LStripSuffix(s[1..]);
    }
  }

  /** `str.rstrip()`: drop trailing whitespace. */
  function RStrip(s: string): (r: string)
    ensures |r| <= |s| && r == s[..|r|]
    ensures r == [] || !IsSpace(r[|r| - 1])
    ensures forall i :: |r| <= i < |s| ==> IsSpace(s[i])
  {
    if s != [] && IsSpace(s[|s| - 1]) then RStrip(s[..|s| - 1]) else s
  }

  /** `str.strip()`. */
  function Strip(s: string): (r: string)
    ensures |r| <= |s|
    ensures r == [] || (!IsSpace(r[0]) && !IsSpace(r[|r| - 1]))
    ensures NoSpace(s) ==> r == s
  {
    RStrip(LStrip(s))
  }

  /** A non-space character survives `lstrip`, shifted by what was dropped. */
  lemma LStripKeepsAt(s: string, i: nat)
    requires i < |s| && !IsSpace(s[i])
    ensures |s| - |LStrip(s)| <= i && LStrip(s)[i - (|s| - |LStrip(s)|)] == s[i]
  {
    LStripSuffix(s);
  }

  /** A non-space character survives `rstrip` in place. */
  lemma RStripKeepsAt(s: string, j: nat)
    requires j < |s| && !IsSpace(s[j])
    ensures j < |RStrip(s)| && RStrip(s)[j] == s[j]
  {
  }

  /** Stripping whitespace keeps every non-space character. */
  lemma StripKeepsNonSpace(s: string, c: char)
    requires c in s && !IsSpace(c)
    ensures c in Strip(s)
  {
    var i :| 0 <= i < |s| && s[i] == c;
    LStripKeepsAt(s, i);
    var l := LStrip(s);
    var j := i - (|s| - |l|);
    RStripKeepsAt(l, j);
    assert Strip(s)[j] == c;
  }

  /** Stripping twice strips nothing more. */
  lemma StripIdempotent(s: string)
    ensures Strip(Strip(s)) == Strip(s)
  {
    var r := Strip(s);
    assert LStrip(r) == r;
  }

  /** Lower-casing twice changes nothing more. */
  lemma LowerIdempotent(s: string)
    ensures Lower(Lower(s)) == Lower(s)
  {
    LowerNoUpper(Lower(s));
  }

  lemma {:induction false} LStripLower(s: string)
    ensures LStrip(Lower(s)) == Lower(LStrip(s))
    decreases |s|
  {
    if s != [] && IsSpace(s[0]) {
      assert Lower(s)[1..] == Lower(s[1..]);
      LStripLower(s[1..]);
    }
  }

  lemma {:induction false} RStripLower(s: string)
    ensures RStrip(Lower(s)) == Lower(RStrip(s))
    decreases |s|
  {
    if s != [] && IsSpace(s[|s| - 1]) {
      assert Lower(s)[..|s| - 1] == Lower(s[..|s| - 1]);
      RStripLower(s[..|s| - 1]);
    }
  }

  /** Stripping and lower-casing commute: case never touches whitespace. */
  lemma StripLower(s: string)
    ensures Strip(Lower(s)) == Lower(Strip(s))
  {
    LStripLower(s);
    RStripLower(LStrip(s));
  }

  /** `s.rstrip(c)` for a single character `c`. */
  function RStripChar(s: string, c: char): (r: string)
    ensures |r| <= |s| && r == s[..|r|]
    ensures r == [] || r[|r| - 1] != c
  {
    if s != [] && s[|s| - 1] == c then RStripChar(s[..|s| - 1], c) else s
  }

  /** `rstrip(c)` removes copies of `c` and nothing else. */
  lemma {:induction false} RStripCharOnly(s: string, c: char)
    ensures forall i :: |RStripChar(s, c)| <= i < |s| ==> s[i] == c
    decreases |s|
  {
    if s != [] && s[|s| - 1] == c {
      RStripCharOnly(s[..|s| - 1], c);
    }
  }

  /** `s.strip(c)` for a single character `c`. */
  function StripChar(s: string, c: char): (r: string)
    ensures r == [] || (r[0] != c && r[|r| - 1] != c)
  {
    var t := RStripChar(s, c);
    if t != [] && t[0] == c then StripChar(t[1..], c) else t
  }

  /** The digits of `s`, in order: `re.sub(r'\D', '', s)`. */
  function Digits(s: string): (r: string)
    ensures AllDigits(r) && |r| <= |s|
    ensures AllDigits(s) ==> r == s
  {
    if s == [] then [] else (if IsDigit(s[0]) then [s[0]] else []) + Digits(s[1..])
  }

  lemma {:induction false} DigitsAppend(s: string, t: string)
    ensures Digits(s + t) == Digits(s) + Digits(t)
  {
    if s != [] {
      assert (s + t)[1..] == s[1..] + t;
      DigitsAppend(s[1..], t);
    } else {
      assert s + t == t;
    }
  }

  /** The number of digit characters in `s`. */
  function DigitCount(s: string): nat {
    |Digits(s)|
  }

  function DigitValue(c: char): nat
    requires IsDigit(c)
  {
    c as int - '0' as int
  }

  /** Python's `int(ds)` for a non-empty digit string. */
  function NatOf(ds: string): nat
    requires AllDigits(ds)
  {
    if ds == [] then 0 else 10 * NatOf(ds[..|ds| - 1]) + DigitValue(ds[|ds| - 1])
  }

  function DigitChar(d: nat): (c: char)
    requires d < 10
    ensures IsDigit(c)
  {
    ('0' as int + d) as char
  }

  /** `str(n)` for a natural number. */
  function ShowNat(n: nat): (r: string)
    ensures |r| >= 1 && AllDigits(r)
  {
    if n < 10 then [DigitChar(n)] else ShowNat(n / 10) + [DigitChar(n % 10)]
  }

  /** `str(i)` for an integer. */
  function ShowInt(i: int): string {
    if i < 0 then "-" + ShowNat(-i) else ShowNat(i)
  }

  lemma {:induction false} NatOfShowNat(n: nat)
    ensures NatOf(ShowNat(n)) == n
  {
    if n >= 10 {
      var r := ShowNat(n);
      assert r[..|r| - 1] == ShowNat(n / 10);
      NatOfShowNat(n / 10);
    }
  }

  /** `str.replace(pat, rep)` with a non-empty pattern, scanning left to right. */
  function ReplaceAll(s: string, pat: string, rep: string): string
    requires pat != []
    decreases |s|
  {
    if StartsWith(s, pat) then rep + ReplaceAll(s[|pat|..], pat, rep)
    else if s == [] then []
    else [s[0]] + ReplaceAll(s[1..], pat, rep)
  }

  /** A pattern that does not occur leaves the text unchanged. */
  lemma {:induction false} ReplaceAbsent(s: string, pat: string, rep: string)
    requires pat != [] && !Contains(s, pat)
    ensures ReplaceAll(s, pat, rep) == s
    decreases |s|
  {
    if s != [] {
      ReplaceAbsent(s[1..], pat, rep);
      assert [s[0]] + s[1..] == s;
    }
  }

  lemma {:induction false} ReplaceSingleGone(s: string, c: char)
    ensures forall i :: 0 <= i < |ReplaceAll(s, [c], "")| ==> ReplaceAll(s, [c], "")[i] != c
    ensures !Contains(ReplaceAll(s, [c], ""), [c])
    decreases |s|
  {
    if s != [] {
      ReplaceSingleGone(s[1..], c);
    }
    var r := ReplaceAll(s, [c], "");
    if Contains(r, [c]) {
      var i := ContainsWitness(r, [c]);
      assert false;
    }
  }

  /** Text free of the pattern's first character is kept, and the occurrence after it is replaced. */
  lemma {:induction false} ReplaceFirstOccurrence(a: string, pat: string, b: string, rep: string)
    requires pat != [] && pat[0] !in a
    ensures ReplaceAll(a + pat + b, pat, rep) == a + rep + ReplaceAll(b, pat, rep)
    decreases |a|
  {
    var s := a + pat + b;
    if a == [] {
      assert s == pat + b && StartsWith(s, pat);
      assert s[|pat|..] == b;
    } else {
      assert s[0] == a[0] != pat[0];
      assert !StartsWith(s, pat) by {
        if |pat| <= |s| {
          assert s[..|pat|][0] == s[0];
        }
      }
      assert s[1..] == a[1..] + pat + b;
      assert ReplaceAll(s, pat, rep) == [a[0]] + ReplaceAll(s[1..], pat, rep);
      ReplaceFirstOccurrence(a[1..], pat, b, rep);
      assert [a[0]] + a[1..] == a;
    }
  }

  /** A single-character pattern that does not occur leaves the text unchanged. */
  lemma {:induction false} ReplaceCharAbsent(s: string, c: char, rep: string)
    requires forall i :: 0 <= i < |s| ==> s[i] != c
    ensures ReplaceAll(s, [c], rep) == s
    decreases |s|
  {
    if s != [] {
      ReplaceCharAbsent(s[1..], c, rep);
      assert [s[0]] + s[1..] == s;
    }
  }

  /** Replacing a single character distributes over concatenation. */
  lemma {:induction false} ReplaceCharAppend(s: string, t: string, c: char, rep: string)
    ensures ReplaceAll(s + t, [c], rep) == ReplaceAll(s, [c], rep) + ReplaceAll(t, [c], rep)
    decreases |s|
  {
    if s == [] {
      assert s + t == t;
    } else {
      assert (s + t)[1..] == s[1..] + t;
      ReplaceCharAppend(s[1..], t, c, rep);
    }
  }

  /** `sep.join(parts)`. */
  function Join(parts: seq<string>, sep: string): string {
    if parts == [] then ""
    else if |parts| == 1 then parts[0]
    else parts[0] + sep + Join(parts[1..], sep)
  }

  /** Length of the leading run of non-whitespace characters. */
  function WordLen(s: string): (n: nat)
    ensures n <= |s|
    ensures forall i :: 0 <= i < n ==> !IsSpace(s[i])
    ensures n == |s| || IsSpace(s[n])
  {
    if s == [] || IsSpace(s[0]) then 0 else 1 + WordLen(s[1..])
  }

  /** `str.split()` with no separator: the maximal runs of non-whitespace. */
  function Words(s: string): seq<string>
    decreases |s|
  {
    var t := LStrip(s);
    if t == [] then []
    else
      var n := WordLen(t);
      LeadingWord(t);
      [t[..n]] + Words(t[n..])
  }

  /** Every word is non-empty and holds no whitespace. */
  lemma {:induction false} WordsAreWords(s: string)
    ensures forall k :: 0 <= k < |Words(s)| ==> Words(s)[k] != [] && NoSpace(Words(s)[k])
    decreases |s|
  {
    var t := LStrip(s);
    if t != [] {
      var n := WordLen(t);
      LeadingWord(t);
      WordsAreWords(t[n..]);
      var rest := Words(t[n..]);
      assert Words(s) == [t[..n]] + rest;
      assert forall k :: 1 <= k < |Words(s)| ==> Words(s)[k] == rest[k - 1];
    }
  }

  /** A string that starts with non-whitespace starts with a non-empty word. */
  lemma LeadingWord(t: string)
    requires t != [] && !IsSpace(t[0])
    ensures 0 < WordLen(t) <= |t| && NoSpace(t[..WordLen(t)])
  {
  }

  /** `str.split(sep)` for a one-character separator. */
  function Split(s: string, sep: char): (r: seq<string>)
    ensures |r| >= 1
    ensures forall k :: 0 <= k < |r| ==> sep !in r[k]
  {
    if s == [] then [""]
    else if s[0] == sep then [""] + Split(s[1..], sep)
    else
      var t := Split(s[1..], sep);
      [[s[0]] + t[0]] + t[1..]
  }

  /** The first field of a split is the text before the first separator. */
  lemma {:induction false} SplitHead(s: string, sep: char)
    ensures |Split(s, sep)[0]| <= |s| && Split(s, sep)[0] == s[..|Split(s, sep)[0]|]
    ensures |Split(s, sep)[0]| < |s| ==> s[|Split(s, sep)[0]|] == sep
    ensures sep !in s ==> Split(s, sep)[0] == s
  {
    if s != [] && s[0] != sep {
      SplitHead(s[1..], sep);
      assert [s[0]] + s[1..] == s;
    }
  }

  lemma {:induction false} SplitNoSep(w: string, c: char)
    requires c !in w
    ensures Split(w, c) == [w]
  {
    if w != [] {
      SplitNoSep(w[1..], c);
      assert [w[0]] + w[1..] == w;
    }
  }

  lemma {:induction false} SplitAppend(w: string, c: char, t: string)
    requires c !in w
    ensures Split(w + [c] + t, c) == [w] + Split(t, c)
  {
    if w != [] {
      assert (w + [c] + t)[1..] == w[1..] + [c] + t;
      SplitAppend(w[1..], c, t);
      assert [w[0]] + w[1..] == w;
    } else {
      assert w + [c] + t == [c] + t;
    }
  }

  /** Splitting a join on a separator that no part contains gives the parts back. */
  lemma {:induction false} SplitJoin(ws: seq<string>, c: char)
    requires |ws| >= 1
    requires forall k :: 0 <= k < |ws| ==> c !in ws[k]
    ensures Split(Join(ws, [c]), c) == ws
  {
    if |ws| == 1 {
      SplitNoSep(ws[0], c);
    } else {
      SplitJoin(ws[1..], c);
      SplitAppend(ws[0], c, Join(ws[1..], [c]));
    }
  }

  lemma {:induction false} JoinSplit(s: string, sep: char)
    ensures Join(Split(s, sep), [sep]) == s
  {
    if s != [] {
      JoinSplit(s[1..], sep);
      var t := Split(s[1..], sep);
      if s[0] != sep && |t| > 1 {
        assert ([[s[0]] + t[0]] + t[1..])[1..] == t[1..];
      }
    }
  }

  /**
   * Digits with single underscores between them, as Python's `int()` and
   * `float()` accept (`1_000`).
   */
  predicate DigitGroups(b: string) {
    b != [] && IsDigit(b[0]) && IsDigit(b[|b| - 1]) &&
    (forall i :: 0 <= i < |b| ==> IsDigit(b[i]) || b[i] == '_') &&
    (forall i :: 0 <= i < |b| - 1 ==> !(b[i] == '_' && b[i + 1] == '_'))
  }

  lemma AllDigitsGroups(b: string)
    requires b != [] && AllDigits(b)
    ensures DigitGroups(b)
  {
  }

  function Signed(neg: bool, n: nat): int {
    if neg then -(n as int) else n
  }

  /** Python's `int(s)` on a string: `None` stands for `ValueError`. */
  function ParseInt(s: string): (r: Option<int>)
    ensures AllDigits(s) && s != [] ==> r == Some(NatOf(s))
  {
    var t := Strip(s);
    if t == [] then None
    else
      var signed := t[0] == '-' || t[0] == '+';
      var body := if signed then t[1..] else t;
      if DigitGroups(body) then Some(Signed(t[0] == '-', NatOf(Digits(body)))) else None
  }

  /** Truncation toward zero, as Python's `int()` does to a float. */
  function TruncReal(x: real): (r: int)
    ensures 0.0 <= x ==> r as real <= x < r as real + 1.0
    ensures x < 0.0 ==> r as real - 1.0 < x <= r as real
  {
    if x >= 0.0 then x.Floor else -((-x).Floor)
  }

  function SignedReal(neg: bool, x: real): real {
    if neg then -x else x
  }

  /** The value of the digits after a decimal point. */
  function Fraction(ds: string): (f: real)
    requires AllDigits(ds)
    ensures 0.0 <= f < 1.0
  {
    NatOfBelowPow10(ds);
    DivBelowOne(NatOf(ds) as real, Pow10(|ds|) as real);
    NatOf(ds) as real / Pow10(|ds|) as real
  }

  lemma DivBelowOne(a: real, b: real)
    requires 0.0 <= a < b
    ensures 0.0 <= a / b < 1.0
  {
    var q := a / b;
    assert q * b == a;
  }

  lemma {:induction false} NatOfBelowPow10(ds: string)
    requires AllDigits(ds)
    ensures NatOf(ds) < Pow10(|ds|)
    decreases |ds|
  {
    if ds != [] {
      NatOfBelowPow10(ds[..|ds| - 1]);
    }
  }

  /** Where the exponent marker `e` or `E` of a number is: its first occurrence, or `|s|` when there is none. */
  function ExpIndex(s: string): (i: nat)
    ensures i <= |s|
    ensures forall j :: 0 <= j < i ==> s[j] != 'e' && s[j] != 'E'
    ensures i < |s| ==> s[i] == 'e' || s[i] == 'E'
  {
    if s == [] then 0
    else if s[0] == 'e' || s[0] == 'E' then 0
    else 1 + ExpIndex(s[1..])
  }

  /** The unsigned decimal part of a float literal (`12`, `3.75`, `.5`, `5.`). */
  function Mantissa(body: string): (r: Option<real>)
    ensures r.Some? ==> 0.0 <= r.value
  {
    if '.' !in body then
      (if DigitGroups(body) then Some(NatOf(Digits(body)) as real) else None)
    else
      var parts := Split(body, '.');
      if |parts| != 2 then None
      else
        var ip, fp := parts[0], parts[1];
        if (ip == [] && fp == []) || (ip != [] && !DigitGroups(ip)) || (fp != [] && !DigitGroups(fp)) then None
        else Some(NatOf(Digits(ip)) as real + Fraction(Digits(fp)))
  }

  /** The exponent after the marker: whether it is negative and its digits' value, with no surrounding space. */
  function ExponentOf(s: string): (r: Option<(bool, nat)>)
    ensures AllDigits(s) && s != [] ==> r == Some((false, NatOf(s)))
  {
    if s == [] then None
    else
      var neg := s[0] == '-';
      var d := if neg || s[0] == '+' then s[1..] else s;
      if DigitGroups(d) then Some((neg, NatOf(Digits(d)))) else None
  }

  /** `x * 10 ** k`, or `x * 10 ** -k` when `neg`. */
  function Scale(x: real, neg: bool, k: nat): real {
    if neg then x / Pow10(k) as real else x * Pow10(k) as real
  }

  /**
   * Python's `float(s)` on a decimal literal with an optional exponent
   * (`12`, `-3.75`, `.5`, `5.`, `1e5`, `2.5E-3`, `1_000`). `None` stands
   * for `ValueError`. The names `inf`, `infinity` and `nan` are not
   * recognised, and no value overflows to infinity.
   */
  function ParseFloat(s: string): (r: Option<real>)
  {
    var t := Strip(s);
    if t == [] then None
    else
      var neg := t[0] == '-';
      match UnsignedFloat(if neg || t[0] == '+' then t[1..] else t)
      case None => None
      case Some(x) => Some(SignedReal(neg, x))
  }

  /** `float()` on what follows the sign: a mantissa and an optional exponent. */
  function UnsignedFloat(body: string): Option<real> {
    var i := ExpIndex(body);
    var m := Mantissa(body[..i]);
    if m.None? then None
    else if i == |body| then m
    else match ExponentOf(body[i + 1..])
      case None => None
      case Some(e) => Some(Scale(m.value, e.0, e.1))
  }

  /** Text without whitespace that starts with a digit is read without a sign. */
  lemma ParseFloatUnsigned(s: string)
    requires s != [] && IsDigit(s[0]) && NoSpace(s)
    ensures ParseFloat(s) == UnsignedFloat(s)
  {
  }

  /** A plain digit string reads as its own value. */
  lemma ParseFloatDigits(s: string)
    ensures AllDigits(s) && s != [] ==> ParseFloat(s) == Some(NatOf(s) as real)
  {
    if AllDigits(s) && s != [] {
      assert forall j :: 0 <= j < |s| ==> IsDigit(s[j]);
      ParseFloatUnsigned(s);
      assert ExpIndex(s) == |s|;
      assert s[..|s|] == s;
      MantissaDigits(s);
    }
  }

  lemma MantissaDigits(a: string)
    requires a != [] && AllDigits(a)
    ensures Mantissa(a) == Some(NatOf(a) as real)
  {
    AllDigitsGroups(a);
  }

  lemma ExpIndexAfterDigits(a: string, x: string)
    requires AllDigits(a)
    ensures ExpIndex(a + "e" + x) == |a|
  {
    var s := a + "e" + x;
    var i := ExpIndex(s);
    assert s[|a|] == 'e';
    assert forall j :: 0 <= j < |a| ==> s[j] == a[j];
  }

  lemma NoSpaceJoin(a: string, x: string)
    requires AllDigits(a) && NoSpace(x)
    ensures NoSpace(a + "e" + x)
  {
    var s := a + "e" + x;
    forall j | 0 <= j < |s| ensures !IsSpace(s[j]) {
      if j < |a| { assert s[j] == a[j]; } else if j > |a| { assert s[j] == x[j - |a| - 1]; }
    }
  }

  /** Digits, the marker `e` and an exponent read as the digits' value scaled by the exponent. */
  lemma ParseFloatWithExponent(a: string, x: string, neg: bool, k: nat)
    requires a != [] && AllDigits(a) && NoSpace(x) && ExponentOf(x) == Some((neg, k))
    ensures ParseFloat(a + "e" + x) == Some(Scale(NatOf(a) as real, neg, k))
  {
    var s := a + "e" + x;
    NoSpaceJoin(a, x);
    assert s[0] == a[0];
    ParseFloatUnsigned(s);
    UnsignedWithExponent(a, x, neg, k);
  }

  lemma UnsignedWithExponent(a: string, x: string, neg: bool, k: nat)
    requires a != [] && AllDigits(a) && ExponentOf(x) == Some((neg, k))
    ensures UnsignedFloat(a + "e" + x) == Some(Scale(NatOf(a) as real, neg, k))
  {
    var s := a + "e" + x;
    ExpIndexAfterDigits(a, x);
    assert s[..|a|] == a;
    assert s[|a| + 1..] == x;
    MantissaDigits(a);
  }

  /** A minus sign and digits read as a negative exponent. */
  lemma ExponentOfNegative(d: string)
    requires d != [] && AllDigits(d)
    ensures NoSpace("-" + d) && ExponentOf("-" + d) == Some((true, NatOf(d)))
  {
    assert ("-" + d)[1..] == d;
    AllDigitsGroups(d);
    assert forall j :: 0 < j < |"-" + d| ==> ("-" + d)[j] == d[j - 1];
  }

  /** Scaling a whole number by a power of ten. */
  lemma ScaleWhole(m: nat, k: nat)
    ensures Scale(m as real, false, k) == (m * Pow10(k)) as real
  {
  }

  /** Digits, `e` and digits read as a whole number times a power of ten: `"15e3"` is 15000. */
  lemma ParseFloatScientific(a: string, b: string)
    requires a != [] && AllDigits(a) && b != [] && AllDigits(b)
    ensures ParseFloat(a + "e" + b) == Some((NatOf(a) * Pow10(NatOf(b))) as real)
  {
    ScaleWhole(NatOf(a), NatOf(b));
    assert NoSpace(b) by {
      assert forall j :: 0 <= j < |b| ==> IsDigit(b[j]);
    }
    ParseFloatWithExponent(a, b, false, NatOf(b));
  }

  /** Digits, `e-` and digits read as a whole number divided by a power of ten: `"15e-3"` is 0.015. */
  lemma ParseFloatNegativeExponent(a: string, b: string)
    requires a != [] && AllDigits(a) && b != [] && AllDigits(b)
    ensures ParseFloat(a + "e" + ("-" + b)) == Some(NatOf(a) as real / Pow10(NatOf(b)) as real)
  {
    ExponentOfNegative(b);
    ParseFloatWithExponent(a, "-" + b, true, NatOf(b));
  }

  /** Python's `int(float(s))`: the value truncated toward zero. */
  function ParseFloatTrunc(s: string): (r: Option<int>)
    ensures AllDigits(s) && s != [] ==> r == Some(NatOf(s))
  {
    ParseFloatDigits(s);
    match ParseFloat(s)
    case None => None
    case Some(x) => Some(TruncReal(x))
  }

  /** Three digits with leading zeros, for `k < 1000`. */
  function Pad3(k: nat): (r: string)
    requires k < 1000
    ensures |r| == 3 && AllDigits(r) && NatOf(r) == k
  {
    var a := k / 100;
    var b := (k - 100 * a) / 10;
    var c := k - 100 * a - 10 * b;
    ThreeDigits(a, b, c);
    [DigitChar(a), DigitChar(b), DigitChar(c)]
  }

  /** Three digit characters read back as the number they spell. */
  lemma ThreeDigits(a: nat, b: nat, c: nat)
    requires a < 10 && b < 10 && c < 10
    ensures var r := [DigitChar(a), DigitChar(b), DigitChar(c)];
            AllDigits(r) && NatOf(r) == 100 * a + 10 * b + c
  {
    var r := [DigitChar(a), DigitChar(b), DigitChar(c)];
    assert r[..2] == [DigitChar(a), DigitChar(b)];
    assert r[..2][..1] == [DigitChar(a)];
    assert [DigitChar(a)][..0] == [];
    assert NatOf([DigitChar(a)]) == a;
    assert NatOf(r[..2]) == 10 * a + b;
  }

  /** Python's `f"{n:,}"` for a natural number: thousands separated by commas. */
  function Thousands(n: nat): (r: string)
    ensures r != [] && IsDigit(r[0]) && IsDigit(r[|r| - 1])
    ensures forall i :: 0 <= i < |r| ==> IsDigit(r[i]) || r[i] == ','
  {
    if n < 1000 then ShowNat(n) else Thousands(n / 1000) + "," + Pad3(n % 1000)
  }

  /** Python's `f"{v:,}"` for an integer. */
  function GroupedInt(v: int): string {
    if v < 0 then "-" + Thousands(-v) else Thousands(v)
  }

  lemma {:induction false} NatOfAppend(a: string, b: string)
    requires AllDigits(a) && AllDigits(b)
    ensures NatOf(a + b) == NatOf(a) * Pow10(|b|) + NatOf(b)
    decreases |b|
  {
    if b != [] {
      var b' := b[..|b| - 1];
      var d := DigitValue(b[|b| - 1]);
      assert (a + b)[..|a + b| - 1] == a + b';
      assert (a + b)[|a + b| - 1] == b[|b| - 1];
      assert AllDigits(b');
      NatOfAppend(a, b');
      var x, y, p := NatOf(a), NatOf(b'), Pow10(|b'|);
      assert NatOf(a + b) == 10 * NatOf(a + b') + d;
      assert NatOf(b) == 10 * y + d;
      assert Pow10(|b|) == 10 * p;
      Distribute(x, p, y, d);
    } else {
      assert a + b == a;
    }
  }

  lemma Distribute(x: int, p: int, y: int, d: int)
    ensures 10 * (x * p + y) + d == x * (10 * p) + (10 * y + d)
  {
  }

  function Pow10(k: nat): (p: nat)
    ensures p >= 1
  {
    if k == 0 then 1 else 10 * Pow10(k - 1)
  }

  /** Dropping the commas of a grouped number and reading the digits gives the number back. */
  lemma {:induction false} ThousandsDigits(n: nat)
    ensures Digits(Thousands(n)) == Thousands(n) || n >= 1000
    ensures AllDigits(Digits(Thousands(n))) && NatOf(Digits(Thousands(n))) == n
  {
    if n < 1000 {
      NatOfShowNat(n);
    } else {
      ThousandsDigits(n / 1000);
      var p := Thousands(n / 1000);
      var q := Pad3(n % 1000);
      DigitsAppend(p + ",", q);
      DigitsAppend(p, ",");
      assert Digits(",") == [];
      assert Digits(q) == q;
      assert Digits(Thousands(n)) == Digits(p) + q;
      NatOfAppend(Digits(p), q);
      assert Pow10(3) == 1000;
      assert NatOf(Digits(p) + q) == (n / 1000) * 1000 + n % 1000;
    }
  }
}
