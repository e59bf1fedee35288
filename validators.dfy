/**
 * Plausibility checks applied to scraped values before a blueprint is
 * committed (scrapegoat/app/enrichment/validators.py). Each takes Python's
 * `Optional[str]`; `None` and the empty string are rejected up front.
 */
module Validators {
  import opened Wrappers
  import opened Text

  /** The number of occurrences of `c` in `s`: Python's `s.count(c)`. */
  function CountChar(s: string, c: char): (n: nat)
    ensures n <= |s|
    ensures n == 0 <==> c !in s
  {
    if s == [] then 0 else (if s[0] == c then 1 else 0) + CountChar(s[1..], c)
  }

  /** Index of the first `c` in `s`, for `s.split(c, 1)`. */
  function IndexOf(s: string, c: char): (i: nat)
    requires c in s
    ensures i < |s| && s[i] == c && c !in s[..i]
  {
    if s[0] == c then 0 else 1 + IndexOf(s[1..], c)
  }

  /** At least ten digits, at most eleven, and an eleven-digit number starts with 1. */
  function IsPlausiblePhone(value: Option<string>): (r: bool)
    ensures r <==> value.Some? &&
                   (|Digits(value.value)| == 10 ||
                    (|Digits(value.value)| == 11 && Digits(value.value)[0] == '1'))
  {
    match value
    case None => false
    case Some(v) =>
      if v == [] then false
      else
        var digits := Digits(v);
        |digits| >= 10 && (|digits| <= 11 && (digits[0] == '1' || |digits| == 10))
  }

  /**
   * Exactly one '@' after trimming, a non-empty local part, and a domain of
   * at least four characters that contains a dot.
   */
  function IsPlausibleEmail(value: Option<string>): (r: bool)
    ensures r <==> value.Some? &&
                   var s := Strip(value.value);
                   exists i :: 0 < i < |s| && s[i] == '@' && CountChar(s, '@') == 1 &&
                               '.' in s[i + 1..] && |s| - i - 1 >= 4
  {
    match value
    case None => false
    case Some(v) =>
      if v == [] then false
      else
        var s := Strip(v);
        if '@' !in s || CountChar(s, '@') != 1 then false
        else
          var at := IndexOf(s, '@');
          var local, domain := s[..at], s[at + 1..];
          local != [] && '.' in domain && |domain| >= 4
  }

  /**
   * Between 2 and 120 characters after trimming, no "http", "www." or ".com"
   * in any case, at most half of the characters digits, and 2 to 6 words.
   */
  function IsPlausibleName(value: Option<string>): (r: bool)
    ensures r ==> value.Some? &&
                  var s := Strip(value.value);
                  2 <= |s| <= 120 && 2 * DigitCount(s) <= |s| && 2 <= |Words(s)| <= 6
  {
    match value
    case None => false
    case Some(v) =>
      if v == [] then false
      else
        var s := Strip(v);
        if |s| < 2 || |s| > 120 then false
        else if Contains(Lower(s), "http") || Contains(Lower(s), "www.") || Contains(Lower(s), ".com") then false
        else if DigitCount(s) > |s| / 2 then false
        else 2 <= |Words(s)| <= 6
  }

  /** The digits, read as one number, lie between 1 and 120. */
  function IsPlausibleAge(value: Option<string>): (r: bool)
    ensures r <==> value.Some? && Digits(value.value) != [] && 1 <= NatOf(Digits(value.value)) <= 120
  {
    match value
    case None => false
    case Some(v) =>
      if v == [] then false
      else
        var n := Digits(v);
        if n == [] then false
        else
          var a := NatOf(n);
          1 <= a <= 120
  }

  /** Non-empty after trimming and at most `maxLen` characters (300 by default). */
  function IsReasonableString(value: Option<string>, maxLen: int := 300): (r: bool)
    ensures r <==> value.Some? && 0 < |Strip(value.value)| <= maxLen
  {
    match value
    case None => false
    case Some(v) =>
      if v == [] then false
      else
        var s := Strip(v);
        0 < |s| <= maxLen
  }

  /** Every validator rejects `None` and the empty string. */
  lemma RejectsMissing(maxLen: int)
    ensures !IsPlausiblePhone(None) && !IsPlausiblePhone(Some(""))
    ensures !IsPlausibleEmail(None) && !IsPlausibleEmail(Some(""))
    ensures !IsPlausibleName(None) && !IsPlausibleName(Some(""))
    ensures !IsPlausibleAge(None) && !IsPlausibleAge(Some(""))
    ensures !IsReasonableString(None, maxLen) && !IsReasonableString(Some(""), maxLen)
  {
  }

  /** A name mentioning a web address in any letter case is rejected. */
  lemma NameRejectsWebAddress(v: string, marker: string)
    requires marker in {"http", "www.", ".com"}
    requires Contains(Lower(Strip(v)), marker)
    ensures !IsPlausibleName(Some(v))
  {
  }

  /** The age check reads only the digits: separators and units are ignored. */
  lemma {:induction false} AgeReadsDigitsOnly(v: string)
    requires Digits(v) != []
    ensures IsPlausibleAge(Some(v)) == IsPlausibleAge(Some(Digits(v)))
  {
    DigitsOfDigits(v);
  }

  lemma DigitsOfDigits(v: string)
    ensures Digits(Digits(v)) == Digits(v)
  {
  }

  /** A written-out number is a plausible age exactly when it lies in 1..120. */
  lemma {:induction false} AgeOfNumber(n: nat)
    ensures IsPlausibleAge(Some(ShowNat(n))) <==> 1 <= n <= 120
  {
    NatOfShowNat(n);
  }

  /** A run of `k` zeros: the leading zeros `int()` ignores. */
  function Zeros(k: nat): (z: string)
    ensures |z| == k && AllDigits(z)
  {
    if k == 0 then "" else Zeros(k - 1) + "0"
  }

  lemma {:induction false} ZerosValue(k: nat)
    ensures NatOf(Zeros(k)) == 0
  {
    if k > 0 {
      var z := Zeros(k);
      assert z[..|z| - 1] == Zeros(k - 1);
      ZerosValue(k - 1);
    }
  }

  /** Leading zeros do not matter: "045" is the plausible age 45, "000" is not plausible. */
  lemma {:induction false} AgeWithLeadingZeros(k: nat, n: nat)
    ensures IsPlausibleAge(Some(Zeros(k) + ShowNat(n))) <==> 1 <= n <= 120
  {
    ZerosValue(k);
    AgeAfterZeroValue(Zeros(k), ShowNat(n));
    NatOfShowNat(n);
  }

  /** Digits worth nothing in front of a number leave its plausibility as it was. */
  lemma AgeAfterZeroValue(z: string, w: string)
    requires AllDigits(z) && AllDigits(w) && w != [] && NatOf(z) == 0
    ensures IsPlausibleAge(Some(z + w)) <==> 1 <= NatOf(w) <= 120
  {
    assert AllDigits(z + w);
    assert Digits(z + w) == z + w;
    NatOfAppend(z, w);
  }

  /** Raising the length bound never turns an accepted string into a rejected one. */
  lemma ReasonableMonotone(v: Option<string>, m: int, n: int)
    requires m <= n && IsReasonableString(v, m)
    ensures IsReasonableString(v, n)
  {
  }

  lemma DigitsOfDashedSeven()
    ensures Digits("555-1234") == "5551234"
  {
    var tail := "-1234";
    assert AllDigits("555") && AllDigits("1234");
    assert tail[1..] == "1234" && !IsDigit(tail[0]);
    assert Digits(tail) == "1234";
    assert "555-1234" == "555" + tail;
    DigitsAppend("555", tail);
    assert "555" + "1234" == "5551234";
  }

  /** Ten digits, or eleven led by 1, are plausible; a dashed seven-digit number is not. */
  lemma PhoneExamples()
    ensures IsPlausiblePhone(Some("5551234567"))
    ensures IsPlausiblePhone(Some("15551234567"))
    ensures !IsPlausiblePhone(Some("25551234567"))
    ensures !IsPlausiblePhone(Some("555-1234"))
  {
    assert AllDigits("5551234567") && AllDigits("15551234567") && AllDigits("25551234567");
    DigitsOfDashedSeven();
  }
}
