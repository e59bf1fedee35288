/**
 * Skip tracing (scrapegoat/app/enrichment/skip_tracing.py): finding a
 * lead's phone and email, first through the free people-search spider,
 * then through two paid lookup services.
 *
 * The spider and the HTTP services are not modelled; what they returned is
 * a parameter: `None`/`Failed` where the call raised (every such exception
 * is caught in the source), the decoded response otherwise.
 */
module SkipTracing {
  import opened Wrappers
  import opened Text
  import opened Json
  import ScraperEnrichment

  // ---------------------------------------------------------------------
  // Reading a phone number out of a response
  // ---------------------------------------------------------------------

  /** The phone fields, in the order `extract_phone_from_response` tries them. */
  const PhoneFields: seq<string> := ["phone", "phoneNumber", "phone_number", "phoneNumber", "mobile", "cell"]

  /** `data.get('phone') or data.get('phoneNumber') or ...`: the first truthy phone field. */
  function PhoneField(d: map<string, Json>): (r: Json)
    ensures r.Truthy() <==> exists i :: 0 <= i < |PhoneFields| && Get(d, PhoneFields[i]).Truthy()
  {
    var vals := [Get(d, "phone"), Get(d, "phoneNumber"), Get(d, "phone_number"),
                 Get(d, "phoneNumber"), Get(d, "mobile"), Get(d, "cell")];
    assert forall i :: 0 <= i < |vals| ==> vals[i] == Get(d, PhoneFields[i]);
    OrChain(vals)
  }

  /**
   * The normalisation applied to a phone string: ten digits, or eleven led
   * by 1, become "+1..." and "+..."; '+'-prefixed text is kept; any other
   * text with ten or more digits becomes "+1" and all of its digits.
   */
  function PhoneOfString(phone: string): (r: Option<string>)
    ensures r.Some? ==> r.value != [] && r.value[0] == '+'
    ensures !StartsWith(phone, "+") ==> (r.Some? <==> |Digits(phone)| >= 10)
    ensures StartsWith(phone, "+") ==> r.Some?
    ensures r.Some? && !StartsWith(phone, "+") ==>
              Digits(r.value) == (if |Digits(phone)| == 11 && Digits(phone)[0] == '1' then Digits(phone) else "1" + Digits(phone))
  {
    var digits := Digits(phone);
    DigitsAppend("+", digits);
    DigitsAppend("+1", digits);
    assert Digits("+") == "" && Digits("+1") == "1";
    if |digits| == 10 then Some("+1" + digits)
    else if |digits| == 11 && digits[0] == '1' then Some("+" + digits)
    else if StartsWith(phone, "+") then Some(phone)
    else if |digits| >= 10 then Some("+1" + digits)
    else None
  }

  /** `extract_phone_from_response(data)`. */
  function ExtractPhone(data: Json): (r: Option<string>)
    ensures r.Some? ==> r.value != [] && r.value[0] == '+'
    decreases data
  {
    match data
    case JObj(d) =>
      var phone := PhoneField(d);
      if phone.Truthy() && phone.JStr? then PhoneOfString(phone.s)
      else if "contact" in d then ExtractPhone(d["contact"])
      else if "result" in d then ExtractPhone(d["result"])
      else None
    case JList(items) => if items != [] then ExtractPhone(items[0]) else None
    case _ => None
  }

  /** The first truthy phone field decides; later fields are not looked at. */
  lemma PhoneFieldPriority(d: map<string, Json>, i: nat, s: string)
    requires i < |PhoneFields| && PhoneFields[i] in d && d[PhoneFields[i]] == JStr(s) && s != []
    requires forall j :: 0 <= j < i ==> !Get(d, PhoneFields[j]).Truthy()
    ensures ExtractPhone(JObj(d)) == PhoneOfString(s)
  {
    var vals := [Get(d, "phone"), Get(d, "phoneNumber"), Get(d, "phone_number"),
                 Get(d, "phoneNumber"), Get(d, "mobile"), Get(d, "cell")];
    assert forall j :: 0 <= j < |vals| ==> vals[j] == Get(d, PhoneFields[j]);
    OrChainFirst(vals, i);
  }

  /** A phone string that does not normalise ends the search: nested objects are not consulted. */
  lemma StringPhoneEndsSearch(d: map<string, Json>, s: string)
    requires PhoneField(d) == JStr(s) && s != [] && PhoneOfString(s).None?
    ensures ExtractPhone(JObj(d)) == None
  {
  }

  /** Without a phone string, `contact` is searched, and `result` only when there is no `contact`. */
  lemma NestedSearchOrder(d: map<string, Json>)
    requires !(PhoneField(d).Truthy() && PhoneField(d).JStr?)
    ensures "contact" in d ==> ExtractPhone(JObj(d)) == ExtractPhone(d["contact"])
    ensures "contact" !in d && "result" in d ==> ExtractPhone(JObj(d)) == ExtractPhone(d["result"])
    ensures "contact" !in d && "result" !in d ==> ExtractPhone(JObj(d)) == None
  {
  }

  /** A list is searched through its first element only. */
  lemma ListHeadOnly(items: seq<Json>)
    requires items != []
    ensures ExtractPhone(JList(items)) == ExtractPhone(items[0])
    ensures ExtractEmail(JList(items)) == ExtractEmail(items[0])
  {
  }

  /**
   * Unlike `normalize_phone`, which keeps the last ten digits, a long
   * number here keeps all of its digits behind "+1".
   */
  lemma KeepsAllDigits(phone: string)
    requires !StartsWith(phone, "+") && |Digits(phone)| >= 12
    ensures PhoneOfString(phone) == Some("+1" + Digits(phone))
    ensures ScraperEnrichment.NormalizePhone(phone) == "+1" + Digits(phone)[|Digits(phone)| - 10..]
    ensures PhoneOfString(phone) != Some(ScraperEnrichment.NormalizePhone(phone))
  {
    assert phone != [];
    var d := Digits(phone);
    assert |"+1" + d| != |"+1" + d[|d| - 10..]|;
  }

  // ---------------------------------------------------------------------
  // Reading an email out of a response
  // ---------------------------------------------------------------------

  /** `extract_email_from_response(data)`. */
  function ExtractEmail(data: Json): (r: Option<string>)
    ensures r.Some? ==> '@' in r.value
    decreases data
  {
    match data
    case JObj(d) =>
      var email := OrChain([Get(d, "email"), Get(d, "emailAddress"), Get(d, "email_address")]);
      if email.Truthy() && '@' in PyStr(email) then Some(PyStr(email))
      else if "contact" in d then ExtractEmail(d["contact"])
      else if "result" in d then ExtractEmail(d["result"])
      else None
    case JList(items) => if items != [] then ExtractEmail(items[0]) else None
    case _ => None
  }

  /** An email field without '@' is passed over for the nested `contact` object. */
  lemma EmailWithoutAtFallsThrough(d: map<string, Json>, s: string)
    requires "email" in d && d["email"] == JStr(s) && '@' !in s
    requires "emailAddress" !in d && "email_address" !in d
    requires "contact" in d
    ensures ExtractEmail(JObj(d)) == ExtractEmail(d["contact"])
  {
    var vals := [Get(d, "email"), Get(d, "emailAddress"), Get(d, "email_address")];
    if s != [] {
      OrChainFirst(vals, 0);
    } else {
      OrChainAllFalsy(vals);
    }
  }

  /** A list holding one plain string with an '@' shows it in quotes, and shows the '@'. */
  lemma ShowOneEmailList(e: string)
    requires forall i :: 0 <= i < |e| ==> PlainChar(e[i])
    requires '@' in e
    ensures PyStr(JList([JStr(e)])) == "['" + e + "']"
    ensures '@' in PyStr(JList([JStr(e)]))
  {
    PyStrSingleton(JStr(e));
    ReprPlain(e);
    var i :| 0 <= i < |e| && e[i] == '@';
    assert ("['" + e + "']")[i + 2] == '@';
  }

  /** A truthy `email` field whose text holds '@' is returned as that text. */
  lemma EmailFieldShown(d: map<string, Json>)
    requires "email" in d && d["email"].Truthy() && '@' in PyStr(d["email"])
    ensures ExtractEmail(JObj(d)) == Some(PyStr(d["email"]))
  {
    OrChainFirst([Get(d, "email"), Get(d, "emailAddress"), Get(d, "email_address")], 0);
  }

  /**
   * An email given as a one-element list, `{"email": ["a@b.com"]}`, is
   * returned as `str` shows the list, brackets and quotes included:
   * `"['a@b.com']"`.
   */
  lemma ListEmailIsShown(e: string)
    requires forall i :: 0 <= i < |e| ==> PlainChar(e[i])
    requires '@' in e
    ensures ExtractEmail(JObj(map["email" := JList([JStr(e)])])) == Some("['" + e + "']")
  {
    ShowOneEmailList(e);
    EmailFieldShown(map["email" := JList([JStr(e)])]);
  }

  // ---------------------------------------------------------------------
  // The lookups
  // ---------------------------------------------------------------------

  /** What an HTTP lookup gave: it raised, or it returned a decoded body. */
  datatype Fetch = Failed | Fetched(data: Json)

  /** `{'phone': phone, 'email': email}` with only the fields that were found. */
  function ContactResult(data: Json): (r: map<string, Json>)
    ensures "phone" in r <==> ExtractPhone(data).Some?
    ensures "email" in r <==> ExtractEmail(data).Some?
    ensures "phone" in r ==> r["phone"] == JStr(ExtractPhone(data).value)
    ensures "email" in r ==> r["email"] == JStr(ExtractEmail(data).value)
    ensures r.Keys <= {"phone", "email"}
  {
    var withPhone := match ExtractPhone(data) case Some(p) => map["phone" := JStr(p)] case None => map[];
    match ExtractEmail(data)
    case Some(e) => withPhone["email" := JStr(e)]
    case None => withPhone
  }

  /**
   * `skip_trace_by_email(email, api_key)`: the first truthy of `phone`,
   * `phoneNumber`, `phone_number` of a dictionary body, or the first
   * element when that is a non-empty list.
   */
  function ByEmail(response: Fetch): (r: map<string, Json>)
    ensures r == map[] || (r.Keys == {"phone"} && r["phone"].Truthy())
  {
    match response
    case Failed => map[]
    case Fetched(data) =>
      var phone := if data.JObj? then OrChain([Get(data.fields, "phone"), Get(data.fields, "phoneNumber"),
                                               Get(data.fields, "phone_number")])
                   else JNull;
      var picked := if phone.JList? && phone.items != [] then phone.items[0] else phone;
      if picked.Truthy() then map["phone" := picked] else map[]
  }

  /** The address parts: city, state and ZIP code, each only when truthy. */
  function AddressParts(identity: map<string, Json>): (r: seq<Json>)
    ensures forall k :: 0 <= k < |r| ==> r[k].Truthy()
  {
    (if Get(identity, "city").Truthy() then [Get(identity, "city")] else [])
    + (if Get(identity, "state").Truthy() then [Get(identity, "state")] else [])
    + (if Get(identity, "zipcode").Truthy() then [Get(identity, "zipcode")] else [])
  }

  predicate AllStrings(parts: seq<Json>) {
    forall k :: 0 <= k < |parts| ==> parts[k].JStr?
  }

  function Texts(parts: seq<Json>): (r: seq<string>)
    requires AllStrings(parts)
    ensures |r| == |parts| && forall k :: 0 <= k < |r| ==> r[k] == parts[k].s
  {
    seq(|parts|, k requires 0 <= k < |parts| => parts[k].s)
  }

  /** `", ".join(address_parts)`; None where a part is not a string and the join raises. */
  function Address(identity: map<string, Json>): (r: Option<string>)
    ensures r.Some? ==> (r.value == [] <==> AddressParts(identity) == [])
  {
    var parts := AddressParts(identity);
    if AllStrings(parts) then
      var texts := Texts(parts);
      assert forall k :: 0 <= k < |texts| ==> texts[k] != [];
      JoinEmpty(texts);
      Some(Join(texts, ", "))
    else None
  }

  lemma JoinEmpty(ws: seq<string>)
    requires forall k :: 0 <= k < |ws| ==> ws[k] != []
    ensures Join(ws, ", ") == [] <==> ws == []
  {
  }

  /** City, state and ZIP code, all present, are joined with ", ". */
  lemma AddressOfAllThree(identity: map<string, Json>, city: string, state: string, zip: string)
    requires "city" in identity && identity["city"] == JStr(city) && city != []
    requires "state" in identity && identity["state"] == JStr(state) && state != []
    requires "zipcode" in identity && identity["zipcode"] == JStr(zip) && zip != []
    ensures Address(identity) == Some(city + ", " + state + ", " + zip)
  {
    var parts := AddressParts(identity);
    assert parts == [JStr(city), JStr(state), JStr(zip)];
    var texts := Texts(parts);
    assert texts == [city, state, zip];
    assert texts[1..] == [state, zip] && texts[1..][1..] == [zip];
    assert Join(texts[1..][1..], ", ") == zip;
    assert Join(texts[1..], ", ") == state + ", " + zip;
    assert Join(texts, ", ") == city + ", " + (state + ", " + zip);
    assert AllStrings(parts);
    assert Address(identity) == Some(Join(texts, ", "));
    assert city + ", " + (state + ", " + zip) == city + ", " + state + ", " + zip;
  }

  /** A missing part is left out of the address, with no empty slot. */
  lemma AddressWithoutState(identity: map<string, Json>, city: string, zip: string)
    requires "city" in identity && identity["city"] == JStr(city) && city != []
    requires "state" !in identity
    requires "zipcode" in identity && identity["zipcode"] == JStr(zip) && zip != []
    ensures Address(identity) == Some(city + ", " + zip)
  {
    var parts := AddressParts(identity);
    assert parts == [JStr(city), JStr(zip)];
    var texts := Texts(parts);
    assert texts == [city, zip];
    assert texts[1..] == [zip];
    assert Join(texts, ", ") == city + ", " + zip;
  }

  /** `f"{first_name} {last_name}".strip()` with `''` for a missing field. */
  function FullName(identity: map<string, Json>): string {
    var first := if "firstName" in identity then identity["firstName"] else JStr("");
    var last := if "lastName" in identity then identity["lastName"] else JStr("");
    Strip(PyStr(first) + " " + PyStr(last))
  }

  /**
   * `skip_trace_by_name_address(identity, api_key)`: no query without a
   * name and an address; the primary service, and the alternative one only
   * when the primary raised.
   */
  function ByNameAddress(identity: map<string, Json>, primary: Fetch, alternative: Fetch): (r: map<string, Json>)
    ensures Address(identity).None? ==> r == map[]
    ensures FullName(identity) == [] ==> r == map[]
    ensures Address(identity).Some? && Address(identity).value == [] ==> r == map[]
    ensures r.Keys <= {"phone", "email"}
    ensures primary.Fetched? && Address(identity).Some? && Address(identity).value != [] && FullName(identity) != [] ==>
              r == ContactResult(primary.data)
  {
    match Address(identity)
    case None => map[]
    case Some(address) =>
      var name := FullName(identity);
      if name == [] || address == [] then map[]
      else match primary
        case Fetched(data) => ContactResult(data)
        case Failed =>
          match alternative
          case Fetched(data) => ContactResult(data)
          case Failed => map[]
  }

  // ---------------------------------------------------------------------
  // skip_trace
  // ---------------------------------------------------------------------

  /** The four fields the free lookup needs, all truthy. */
  predicate HasNameAndPlace(identity: map<string, Json>) {
    Get(identity, "firstName").Truthy() && Get(identity, "lastName").Truthy()
    && Get(identity, "city").Truthy() && Get(identity, "state").Truthy()
  }

  /**
   * `try_free_phone_lookup(identity)`, given what the spider returned
   * (None where it raised or returned nothing): its first phone, with age
   * and address.
   */
  function FreeLookup(identity: map<string, Json>, spider: Option<map<string, Json>>): (r: Option<map<string, Json>>)
    ensures r.Some? ==> HasNameAndPlace(identity) && spider.Some?
    ensures r.Some? ==> r.value.Keys == {"phone", "age", "address"}
  {
    if !HasNameAndPlace(identity) then None
    else match spider
      case None => None
      case Some(result) =>
        if result == map[] then None
        else
          var phones := if "phones" in result then result["phones"] else JList([]);
          if !phones.Truthy() then None
          else
            var phone := if phones.JList? then phones.items[0] else phones;
            Some(map["phone" := phone, "age" := Get(result, "age"), "address" := Get(result, "address")])
  }

  /** Whether the free lookup produced a phone, which ends the search. */
  predicate FreeSucceeded(identity: map<string, Json>, spider: Option<map<string, Json>>) {
    var free := FreeLookup(identity, spider);
    free.Some? && Get(free.value, "phone").Truthy()
  }

  /**
   * `skip_trace(identity)`: the free lookup when it yields a phone; then,
   * with an API key, the email lookup and the name-and-address lookup.
   */
  function SkipTrace(identity: map<string, Json>, spider: Option<map<string, Json>>, apiKeySet: bool,
                     byEmail: Fetch, primary: Fetch, alternative: Fetch): (r: map<string, Json>)
    ensures FreeSucceeded(identity, spider) ==> r == FreeLookup(identity, spider).value
    ensures !FreeSucceeded(identity, spider) && !apiKeySet ==> r == map[]
    ensures !FreeSucceeded(identity, spider) ==> r.Keys <= {"phone", "email"}
  {
    if FreeSucceeded(identity, spider) then FreeLookup(identity, spider).value
    else if !apiKeySet then map[]
    else
      var email := Get(identity, "email");
      var found := if email.Truthy() then ByEmail(byEmail) else map[];
      if "phone" in found && found["phone"].Truthy() then map["phone" := found["phone"], "email" := email]
      else if Get(identity, "firstName").Truthy() && Get(identity, "lastName").Truthy() && Get(identity, "city").Truthy()
      then ByNameAddress(identity, primary, alternative)
      else map[]
  }

  /** Free first: once the spider yields a phone, the paid services are never consulted. */
  lemma FreeFirst(identity: map<string, Json>, spider: Option<map<string, Json>>,
                  key1: bool, email1: Fetch, primary1: Fetch, alt1: Fetch,
                  key2: bool, email2: Fetch, primary2: Fetch, alt2: Fetch)
    requires FreeSucceeded(identity, spider)
    ensures SkipTrace(identity, spider, key1, email1, primary1, alt1) == SkipTrace(identity, spider, key2, email2, primary2, alt2)
  {
  }

  /** Without all of first name, last name, city and state the spider is not run. */
  lemma SpiderNeedsNameAndPlace(identity: map<string, Json>, spider1: Option<map<string, Json>>,
                                spider2: Option<map<string, Json>>, key: bool, e: Fetch, p: Fetch, a: Fetch)
    requires !HasNameAndPlace(identity)
    ensures SkipTrace(identity, spider1, key, e, p, a) == SkipTrace(identity, spider2, key, e, p, a)
  {
  }

  /** A phone found by email is returned together with the lead's own email. */
  lemma EmailLookupWins(identity: map<string, Json>, spider: Option<map<string, Json>>, e: Fetch, p: Fetch, a: Fetch)
    requires !FreeSucceeded(identity, spider) && Get(identity, "email").Truthy()
    requires ByEmail(e) != map[]
    ensures SkipTrace(identity, spider, true, e, p, a) == map["phone" := ByEmail(e)["phone"], "email" := identity["email"]]
  {
  }
}
