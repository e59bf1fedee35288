/**
 * The leads table and the "golden record" rules applied when an enriched
 * lead is saved: the two confidence scores, the vision-check flag, the
 * source metadata and the upsert keyed by LinkedIn URL that merges a new
 * lead into the stored row column by column (SQL `COALESCE`).
 *
 * The database is a value: a map from LinkedIn URL to the stored row.
 * Timestamps (`NOW()`) and `json.dumps` are parameters.
 */
module Database {
  import opened Wrappers
  import opened Text
  import opened Json

  /** Python's `int(v)`; `None` stands for the exception it raises. */
  function IntOf(v: Json): (r: Option<int>)
    ensures v.JInt? ==> r == Some(v.i)
    ensures v.JNull? || v.JList? || v.JObj? ==> r.None?
  {
    match v
    case JNull => None
    case JBool(b) => Some(if b then 1 else 0)
    case JInt(i) => Some(i)
    case JFloat(x) => Some(TruncReal(x))
    case JStr(s) => ParseInt(s)
    case JList(_) => None
    case JObj(_) => None
  }

  // ---------------------------------------------------------------------
  // Confidence scores
  // ---------------------------------------------------------------------

  /** The income text handed to `int()`: `$` and `,` removed, `k`/`K` read as thousands. */
  function IncomeText(income: Json): string {
    ReplaceAll(ReplaceAll(ReplaceAll(ReplaceAll(PyStr(income), "$", ""), ",", ""), "k", "000"), "K", "000")
  }

  /** A title that suggests an early-career position. */
  predicate JuniorTitle(title: string) {
    var t := Lower(title);
    Contains(t, "junior") || Contains(t, "associate") || Contains(t, "intern")
  }

  /**
   * The income confidence: lowered to 0.3 when a junior title comes with
   * an income above 100,000; 1.0 when there is no income, the title is
   * not a string or the income does not parse.
   */
  function ConfidenceIncome(income: Json, title: Json): (c: real) {
    if !income.Truthy() || !title.JStr? then 1.0
    else
      match ParseInt(IncomeText(income))
      case None => 1.0
      case Some(val) => if JuniorTitle(title.s) && val > 100000 then 0.3 else 1.0
  }

  /** The income rule's condition, stated apart from the function. */
  predicate IncomeImplausible(income: Json, title: Json) {
    income.Truthy() && title.JStr? && JuniorTitle(title.s) &&
    ParseInt(IncomeText(income)).Some? && ParseInt(IncomeText(income)).value > 100000
  }

  lemma IncomeConfidenceValues(income: Json, title: Json)
    ensures ConfidenceIncome(income, title) in {0.3, 1.0}
    ensures ConfidenceIncome(income, title) == 0.3 <==> IncomeImplausible(income, title)
    ensures !income.Truthy() ==> ConfidenceIncome(income, title) == 1.0
    ensures ParseInt(IncomeText(income)).None? ==> ConfidenceIncome(income, title) == 1.0
  {
  }

  /** An income written as `$<digits>k` or `$<digits>K` is read in thousands. */
  lemma IncomeInThousands(d: string, k: char, title: string)
    requires d != [] && AllDigits(d) && (k == 'k' || k == 'K')
    ensures IncomeText(JStr("$" + d + [k])) == d + "000"
    ensures ConfidenceIncome(JStr("$" + d + [k]), JStr(title)) == 0.3 <==>
            JuniorTitle(title) && NatOf(d) * 1000 > 100000
  {
    IncomeThousandsText(d, k);
    var t := d + "000";
    NatOfAppend(d, "000");
    assert NatOf("000") == 0 by {
      assert "000"[..2] == "00" && "00"[..1] == "0" && "0"[..0] == [];
    }
    assert Pow10(3) == 1000;
    assert AllDigits(t);
    var income := JStr("$" + d + [k]);
    assert IncomeText(income) == t;
    assert ParseInt(t) == Some(NatOf(d) * 1000);
    IncomeRead(income, JStr(title), NatOf(d) * 1000);
  }

  /** The income rule once the income text has been read as `v`. */
  lemma IncomeRead(income: Json, title: Json, v: int)
    requires income.Truthy() && title.JStr?
    requires ParseInt(IncomeText(income)) == Some(v)
    ensures ConfidenceIncome(income, title) == 0.3 <==> JuniorTitle(title.s) && v > 100000
  {
  }

  lemma IncomeThousandsText(d: string, k: char)
    requires d != [] && AllDigits(d) && (k == 'k' || k == 'K')
    ensures IncomeText(JStr("$" + d + [k])) == d + "000"
  {
    StripMoney(d, k);
    ExpandThousands(d, k);
  }

  /** Removing "$" and "," from `$<digits>k` leaves `<digits>k`. */
  lemma StripMoney(d: string, k: char)
    requires AllDigits(d) && (k == 'k' || k == 'K')
    ensures ReplaceAll(ReplaceAll("$" + d + [k], "$", ""), ",", "") == d + [k]
  {
    var dk := d + [k];
    assert forall i :: 0 <= i < |dk| ==> dk[i] != '$' && dk[i] != ',' by {
      forall i | 0 <= i < |dk| ensures dk[i] != '$' && dk[i] != ',' {
        if i < |d| { assert dk[i] == d[i]; }
      }
    }
    assert "$" + d + [k] == ['$'] + dk;
    ReplaceCharAppend(['$'], dk, '$', "");
    assert ReplaceAll(['$'], ['$'], "") == "";
    ReplaceCharAbsent(dk, '$', "");
    assert ReplaceAll("$" + d + [k], "$", "") == dk by {
      assert ReplaceAll(['$'] + dk, ['$'], "") == "" + dk;
    }
    ReplaceCharAbsent(dk, ',', "");
  }

  /** Expanding "k" and "K" in `<digits>k` gives `<digits>000`. */
  lemma ExpandThousands(d: string, k: char)
    requires AllDigits(d) && (k == 'k' || k == 'K')
    ensures ReplaceAll(ReplaceAll(d + [k], "k", "000"), "K", "000") == d + "000"
  {
    assert forall i :: 0 <= i < |d| ==> d[i] != 'k' && d[i] != 'K';
    var d000 := d + "000";
    assert forall i :: 0 <= i < |d000| ==> d000[i] != 'K' by {
      forall i | 0 <= i < |d000| ensures d000[i] != 'K' {
        if i < |d| { assert d000[i] == d[i]; }
      }
    }
    if k == 'k' {
      ReplaceCharAppend(d, [k], 'k', "000");
      ReplaceCharAbsent(d, 'k', "000");
      assert ReplaceAll([k], ['k'], "000") == "000";
      ReplaceCharAbsent(d000, 'K', "000");
    } else {
      ReplaceCharAbsent(d + [k], 'k', "000");
      ReplaceCharAppend(d, [k], 'K', "000");
      ReplaceCharAbsent(d, 'K', "000");
      assert ReplaceAll([k], ['K'], "000") == "000";
    }
  }

  lemma IncomeTextOfNat(n: nat)
    ensures IncomeText(JInt(n)) == ShowNat(n)
  {
    var s := ShowNat(n);
    assert PyStr(JInt(n)) == s;
    ReplaceCharAbsent(s, '$', "");
    ReplaceCharAbsent(s, ',', "");
    ReplaceCharAbsent(s, 'k', "000");
    ReplaceCharAbsent(s, 'K', "000");
  }

  /** A whole-number income is read as itself. */
  lemma IncomeWholeNumber(n: nat, title: string)
    ensures IncomeText(JInt(n)) == ShowNat(n)
    ensures ConfidenceIncome(JInt(n), JStr(title)) == 0.3 <==> JuniorTitle(title) && n > 100000
  {
    IncomeTextOfNat(n);
    NatOfShowNat(n);
  }

  /**
   * The age confidence: lowered to 0.6 when the age is above 59 and the
   * title is non-empty and does not mention retirement; 1.0 when there is
   * no age or it does not parse.
   */
  function ConfidenceAge(age: Json, title: string): (c: real) {
    if age.JNull? then 1.0
    else
      match IntOf(age)
      case None => 1.0
      case Some(a) => if a > 59 && title != "" && !Contains(Lower(title), "retir") then 0.6 else 1.0
  }

  /** The age rule's condition, stated apart from the function. */
  predicate AgeImplausible(age: Json, title: string) {
    IntOf(age).Some? && IntOf(age).value > 59 && title != "" && !Contains(Lower(title), "retir")
  }

  lemma AgeConfidenceValues(age: Json, title: string)
    ensures ConfidenceAge(age, title) in {0.6, 1.0}
    ensures ConfidenceAge(age, title) == 0.6 <==> AgeImplausible(age, title)
    ensures age.JNull? || title == "" ==> ConfidenceAge(age, title) == 1.0
  {
  }

  /** An age given as a digit string is read as the number it spells. */
  lemma AgeFromText(d: string, title: string)
    requires d != [] && AllDigits(d)
    ensures ConfidenceAge(JStr(d), title) == ConfidenceAge(JInt(NatOf(d)), title)
  {
  }

  /** A title that mentions retirement never lowers the age confidence. */
  lemma RetireeTitle(age: Json, title: string)
    requires Contains(Lower(title), "retir")
    ensures ConfidenceAge(age, title) == 1.0
  {
  }

  /** `needs_vlm_check`: either confidence is under its threshold. */
  predicate NeedsVlm(confAge: real, confIncome: real) {
    confAge < 0.7 || confIncome < 0.5
  }

  /** The flag is raised exactly when one of the two rules lowered its score. */
  lemma NeedsVlmIffLowered(age: Json, income: Json, title: Json, titleText: string)
    ensures NeedsVlm(ConfidenceAge(age, titleText), ConfidenceIncome(income, title)) <==>
            AgeImplausible(age, titleText) || IncomeImplausible(income, title)
  {
    AgeConfidenceValues(age, titleText);
    IncomeConfidenceValues(income, title);
  }

  // ---------------------------------------------------------------------
  // The row derived from a lead
  // ---------------------------------------------------------------------

  /** A row of the `leads` table; `JNull` is SQL `NULL`. */
  datatype Row = Row(
    name: Json, phone: Json, email: Json,
    city: Json, state: Json, zipcode: Json,
    age: Json, income: Json, dncStatus: Json, canContact: Json,
    confidenceAge: real, confidenceIncome: real, sourceMetadata: string,
    enrichedAt: string, createdAt: string)

  /** The table, keyed by its unique LinkedIn URL column. */
  type Table = map<string, Row>

  // ---------------------------------------------------------------------
  // The declared column types
  // ---------------------------------------------------------------------

  /**
   * A value that a `VARCHAR(n)` column refuses: a string longer than `n`
   * whose excess holds more than spaces (an excess of spaces is cut off).
   */
  predicate TooLong(v: Json, n: nat) {
    v.JStr? && |v.s| > n && exists i :: n <= i < |v.s| && v.s[i] != ' '
  }

  /**
   * A character the `INTEGER` input syntax may hold: digits, signs,
   * whitespace, `_` and the letters of hexadecimal, octal and binary
   * literals.
   */
  predicate IntegerTextChar(c: char) {
    '0' <= c <= '9' || 'a' <= c <= 'f' || 'A' <= c <= 'F' || IsSpace(c) ||
    c in {'+', '-', '_', 'x', 'X', 'o', 'O'}
  }

  /**
   * An age that the `INTEGER` column refuses: text with a character no
   * integer literal holds, a whole number outside 32 bits, a boolean, or
   * a list (sent as an array).
   */
  predicate AgeRefused(v: Json) {
    (v.JStr? && exists i :: 0 <= i < |v.s| && !IntegerTextChar(v.s[i])) ||
    (v.JInt? && !(-0x8000_0000 <= v.i < 0x8000_0000)) ||
    v.JBool? || v.JList?
  }

  /**
   * What the columns of `ensure_table_exists` make certain about a row
   * the database takes: no dictionary among the parameters (psycopg2
   * cannot adapt one), no text over its column's width, and an age the
   * `INTEGER` column can read.
   */
  predicate DeclaredFit(url: Json, row: Row) {
    !url.JObj? && !row.name.JObj? && !row.phone.JObj? && !row.email.JObj? &&
    !row.city.JObj? && !row.state.JObj? && !row.zipcode.JObj? && !row.age.JObj? &&
    !row.income.JObj? && !row.dncStatus.JObj? && !row.canContact.JObj? &&
    !TooLong(url, 255) && !TooLong(row.name, 255) && !TooLong(row.phone, 20) &&
    !TooLong(row.email, 255) && !TooLong(row.city, 100) && !TooLong(row.state, 50) &&
    !TooLong(row.zipcode, 10) && !TooLong(row.income, 50) && !TooLong(row.dncStatus, 20) &&
    !AgeRefused(row.age)
  }

  /**
   * The database's answer to the `INSERT`, a parameter of the model, takes
   * no row the declared columns refuse.
   */
  ghost predicate HonoursColumns(accepts: (Json, Row) -> bool) {
    forall url, row :: accepts(url, row) ==> DeclaredFit(url, row)
  }

  /** A database that checks exactly the declared columns honours them. */
  lemma DeclaredFitHonoursColumns()
    ensures HonoursColumns((url, row) => DeclaredFit(url, row))
  {
  }

  /** `d.get(k, default)`. */
  function GetOr(d: map<string, Json>, k: string, default: Json): (r: Json)
    ensures k in d ==> r == d[k]
    ensures k !in d ==> r == default
  {
    if k in d then d[k] else default
  }

  function LeadUrl(lead: map<string, Json>): Json {
    Or(Get(lead, "linkedinUrl"), Get(lead, "linkedin_url"))
  }

  /** The name, or "first last" without surrounding whitespace. */
  function LeadName(lead: map<string, Json>): Json {
    Or(Get(lead, "name"),
       JStr(Strip(PyStr(GetOr(lead, "firstName", JStr(""))) + " " + PyStr(GetOr(lead, "lastName", JStr(""))))))
  }

  function LeadAge(lead: map<string, Json>): Json {
    Or(Get(lead, "age"), Get(lead, "chimera_age"))
  }

  function LeadIncome(lead: map<string, Json>): Json {
    Or(Or(Get(lead, "income"), Get(lead, "median_income")), Get(lead, "chimera_income"))
  }

  function LeadTitle(lead: map<string, Json>): Json {
    Or(Get(lead, "title"), JStr(""))
  }

  /** The title as text for the age rule; a non-string title is handled by the caller. */
  function TitleText(title: Json): string {
    if title.JStr? then title.s else ""
  }

  /**
   * The age rule calls `.lower()` on the title once the age is above 59
   * and the title is truthy; a title that is not a string raises there.
   */
  predicate AgeRuleRaises(lead: map<string, Json>) {
    var title := LeadTitle(lead);
    var age := LeadAge(lead);
    !age.JNull? && IntOf(age).Some? && IntOf(age).value > 59 && title.Truthy() && !title.JStr?
  }

  /** Which source a value came from: `chimera` when the Chimera field is present. */
  function SourceOf(lead: map<string, Json>, chimeraKey: string): Json {
    if Get(lead, chimeraKey) != JNull then JStr("chimera") else JStr("census")
  }

  function Sources(lead: map<string, Json>): (r: map<string, Json>) {
    var withAge := if LeadAge(lead) != JNull then map["age" := SourceOf(lead, "chimera_age")] else map[];
    if LeadIncome(lead) != JNull then withAge["income" := SourceOf(lead, "chimera_income")] else withAge
  }

  lemma SourcesOfLead(lead: map<string, Json>)
    ensures "age" in Sources(lead) <==> LeadAge(lead) != JNull
    ensures "income" in Sources(lead) <==> LeadIncome(lead) != JNull
    ensures "age" in Sources(lead) ==>
              (Sources(lead)["age"] == JStr("chimera") <==> Get(lead, "chimera_age") != JNull) &&
              (Sources(lead)["age"] == JStr("census") <==> Get(lead, "chimera_age") == JNull)
    ensures "income" in Sources(lead) ==>
              (Sources(lead)["income"] == JStr("chimera") <==> Get(lead, "chimera_income") != JNull) &&
              (Sources(lead)["income"] == JStr("census") <==> Get(lead, "chimera_income") == JNull)
    ensures Sources(lead).Keys <= {"age", "income"}
  {
  }

  /** A directly supplied age or income wins over the Chimera and census fields. */
  lemma DirectValuesFirst(lead: map<string, Json>)
    ensures Get(lead, "age").Truthy() ==> LeadAge(lead) == lead["age"]
    ensures !Get(lead, "age").Truthy() ==> LeadAge(lead) == Get(lead, "chimera_age")
    ensures Get(lead, "income").Truthy() ==> LeadIncome(lead) == lead["income"]
    ensures !Get(lead, "income").Truthy() && Get(lead, "median_income").Truthy() ==>
              LeadIncome(lead) == lead["median_income"]
    ensures !Get(lead, "income").Truthy() && !Get(lead, "median_income").Truthy() ==>
              LeadIncome(lead) == Get(lead, "chimera_income")
  {
  }

  /**
   * The source label follows the Chimera field, not the value chosen: a
   * direct age stored beside a Chimera age is labelled `chimera`.
   */
  lemma SourceFollowsChimeraField()
    ensures var lead := map["age" := JInt(45), "chimera_age" := JInt(50)];
            LeadAge(lead) == JInt(45) && Sources(lead)["age"] == JStr("chimera")
  {
  }

  /** The `source_metadata` document. */
  function Metadata(lead: map<string, Json>): (r: Json)
    requires !AgeRuleRaises(lead)
  {
    var title := LeadTitle(lead);
    var ca := ConfidenceAge(LeadAge(lead), TitleText(title));
    var ci := ConfidenceIncome(LeadIncome(lead), title);
    JObj(map["sources" := JObj(Sources(lead)), "needs_vlm_check" := JBool(NeedsVlm(ca, ci)), "title" := title])
  }

  /** The row a lead is inserted as, stamped with `now`. */
  function LeadRow(lead: map<string, Json>, dumps: Json -> string, now: string): (r: Row)
    requires !AgeRuleRaises(lead)
  {
    var title := LeadTitle(lead);
    Row(LeadName(lead), Get(lead, "phone"), Get(lead, "email"),
        Get(lead, "city"), Get(lead, "state"), Get(lead, "zipcode"),
        LeadAge(lead), LeadIncome(lead),
        Or(Get(lead, "dnc_status"), GetOr(lead, "status", JStr("UNKNOWN"))),
        GetOr(lead, "can_contact", JBool(false)),
        ConfidenceAge(LeadAge(lead), TitleText(title)),
        ConfidenceIncome(LeadIncome(lead), title),
        dumps(Metadata(lead)), now, now)
  }

  lemma LeadRowFlags(lead: map<string, Json>, dumps: Json -> string, now: string)
    requires !AgeRuleRaises(lead)
    ensures var title := LeadTitle(lead);
            var r := LeadRow(lead, dumps, now);
            Metadata(lead).fields["needs_vlm_check"] ==
              JBool(AgeImplausible(LeadAge(lead), TitleText(title)) || IncomeImplausible(LeadIncome(lead), title)) &&
            (r.confidenceAge == 0.6 <==> AgeImplausible(LeadAge(lead), TitleText(title))) &&
            (r.confidenceIncome == 0.3 <==> IncomeImplausible(LeadIncome(lead), title))
  {
    var title := LeadTitle(lead);
    NeedsVlmIffLowered(LeadAge(lead), LeadIncome(lead), title, TitleText(title));
    AgeConfidenceValues(LeadAge(lead), TitleText(title));
    IncomeConfidenceValues(LeadIncome(lead), title);
  }

  // ---------------------------------------------------------------------
  // The upsert
  // ---------------------------------------------------------------------

  /** SQL `COALESCE(a, b)`. */
  function Coalesce(a: Json, b: Json): (r: Json)
    ensures a != JNull ==> r == a
    ensures a == JNull ==> r == b
  {
    if a == JNull then b else a
  }

  /**
   * `ON CONFLICT DO UPDATE`: each merged column takes the incoming value
   * unless it is `NULL`; the name and the creation time stay; the
   * enrichment time is the incoming one.
   */
  function Merge(stored: Row, incoming: Row): Row {
    Row(stored.name,
        Coalesce(incoming.phone, stored.phone), Coalesce(incoming.email, stored.email),
        Coalesce(incoming.city, stored.city), Coalesce(incoming.state, stored.state),
        Coalesce(incoming.zipcode, stored.zipcode),
        Coalesce(incoming.age, stored.age), Coalesce(incoming.income, stored.income),
        Coalesce(incoming.dncStatus, stored.dncStatus), Coalesce(incoming.canContact, stored.canContact),
        incoming.confidenceAge, incoming.confidenceIncome, incoming.sourceMetadata,
        incoming.enrichedAt, stored.createdAt)
  }

  /** `INSERT ... ON CONFLICT (linkedin_url) DO UPDATE`. */
  function Upsert(t: Table, key: string, incoming: Row): (r: Table) {
    if key in t then t[key := Merge(t[key], incoming)] else t[key := incoming]
  }

  /** Upserting only touches the row under its own key. */
  lemma UpsertFrame(t: Table, key: string, incoming: Row)
    ensures Upsert(t, key, incoming).Keys == t.Keys + {key}
    ensures forall k :: k in t && k != key ==> Upsert(t, key, incoming)[k] == t[k]
    ensures key !in t ==> Upsert(t, key, incoming)[key] == incoming
  {
  }

  /** A non-null incoming value replaces the stored one; a null keeps it. */
  lemma UpsertMerges(t: Table, key: string, incoming: Row)
    requires key in t
    ensures var r := Upsert(t, key, incoming)[key];
            var stored := t[key];
            (incoming.phone != JNull ==> r.phone == incoming.phone) &&
            (incoming.phone == JNull ==> r.phone == stored.phone) &&
            (incoming.email != JNull ==> r.email == incoming.email) &&
            (incoming.email == JNull ==> r.email == stored.email) &&
            (incoming.age != JNull ==> r.age == incoming.age) &&
            (incoming.age == JNull ==> r.age == stored.age) &&
            (incoming.income != JNull ==> r.income == incoming.income) &&
            (incoming.income == JNull ==> r.income == stored.income) &&
            r.name == stored.name && r.createdAt == stored.createdAt &&
            r.enrichedAt == incoming.enrichedAt &&
            r.confidenceAge == incoming.confidenceAge &&
            r.confidenceIncome == incoming.confidenceIncome
  {
  }

  /** Saving the same row twice leaves the table as saving it once. */
  lemma UpsertIdempotent(t: Table, key: string, incoming: Row)
    ensures Upsert(Upsert(t, key, incoming), key, incoming) == Upsert(t, key, incoming)
  {
  }

  // ---------------------------------------------------------------------
  // save_to_database
  // ---------------------------------------------------------------------

  /**
   * Saves a lead and reports success. Without a configured database
   * nothing is saved and the result is `false`. A non-string title that
   * the age rule lowercases raises, which is reported as failure. The
   * database's check of the values against the column types, `accepts`,
   * comes before the `NOT NULL` check: a refused row is a `DataError` or
   * a `ProgrammingError`, reported as failure. A lead without a LinkedIn
   * URL then violates `NOT NULL`, an integrity error that is reported as
   * success.
   */
  function Save(configured: bool, lead: map<string, Json>, t: Table, accepts: (Json, Row) -> bool,
                dumps: Json -> string, now: string): (r: (bool, Table))
    ensures !configured ==> !r.0
    ensures !r.0 ==> r.1 == t
    ensures t.Keys <= r.1.Keys
    ensures configured && !AgeRuleRaises(lead) ==>
              (r.0 <==> accepts(LeadUrl(lead), LeadRow(lead, dumps, now)))
    ensures r.0 ==> !AgeRuleRaises(lead) && accepts(LeadUrl(lead), LeadRow(lead, dumps, now))
  {
    if !configured then (false, t)
    else if AgeRuleRaises(lead) then (false, t)
    else
      var url := LeadUrl(lead);
      if !accepts(url, LeadRow(lead, dumps, now)) then (false, t)
      else if url == JNull then (true, t)
      else (true, Upsert(t, PyStr(url), LeadRow(lead, dumps, now)))
  }

  lemma SaveFailures(configured: bool, lead: map<string, Json>, t: Table, accepts: (Json, Row) -> bool,
                     dumps: Json -> string, now: string)
    ensures !configured ==> !Save(configured, lead, t, accepts, dumps, now).0 &&
                            Save(configured, lead, t, accepts, dumps, now).1 == t
    ensures configured && AgeRuleRaises(lead) ==> !Save(configured, lead, t, accepts, dumps, now).0
    ensures !Save(configured, lead, t, accepts, dumps, now).0 ==> Save(configured, lead, t, accepts, dumps, now).1 == t
  {
  }

  /**
   * A row the declared columns refuse is never saved, whatever else the
   * database checks, and the table is left as it was.
   */
  lemma SaveRefusesUnfitRow(lead: map<string, Json>, t: Table, accepts: (Json, Row) -> bool,
                            dumps: Json -> string, now: string)
    requires HonoursColumns(accepts)
    requires !AgeRuleRaises(lead)
    requires !DeclaredFit(LeadUrl(lead), LeadRow(lead, dumps, now))
    ensures Save(true, lead, t, accepts, dumps, now) == (false, t)
  {
  }

  /** An age such as "45 years" is not saved: the `INTEGER` column refuses it. */
  lemma SaveRefusesAgeText(t: Table, accepts: (Json, Row) -> bool, dumps: Json -> string, now: string)
    requires HonoursColumns(accepts)
    ensures var lead := map["linkedinUrl" := JStr("u"), "age" := JStr("45 years")];
            Save(true, lead, t, accepts, dumps, now) == (false, t)
  {
    var lead := map["linkedinUrl" := JStr("u"), "age" := JStr("45 years")];
    assert LeadTitle(lead) == JStr("");
    assert LeadAge(lead) == JStr("45 years");
    assert !IntegerTextChar(LeadAge(lead).s[3]);
    assert AgeRefused(LeadRow(lead, dumps, now).age);
    SaveRefusesUnfitRow(lead, t, accepts, dumps, now);
  }

  /** A phone of more than 20 characters, not just padded with spaces, is not saved. */
  lemma SaveRefusesLongPhone(lead: map<string, Json>, t: Table, accepts: (Json, Row) -> bool,
                             dumps: Json -> string, now: string, i: nat)
    requires HonoursColumns(accepts)
    requires !AgeRuleRaises(lead)
    requires "phone" in lead && lead["phone"].JStr?
    requires 20 <= i < |lead["phone"].s| && lead["phone"].s[i] != ' '
    ensures Save(true, lead, t, accepts, dumps, now) == (false, t)
  {
    assert TooLong(LeadRow(lead, dumps, now).phone, 20);
    SaveRefusesUnfitRow(lead, t, accepts, dumps, now);
  }

  /** A lead without a LinkedIn URL whose row the database takes is reported saved, and nothing is stored. */
  lemma SaveWithoutUrl(lead: map<string, Json>, t: Table, accepts: (Json, Row) -> bool,
                       dumps: Json -> string, now: string)
    requires !AgeRuleRaises(lead)
    requires !Get(lead, "linkedinUrl").Truthy() && Get(lead, "linkedin_url") == JNull
    requires accepts(JNull, LeadRow(lead, dumps, now))
    ensures Save(true, lead, t, accepts, dumps, now).0
    ensures Save(true, lead, t, accepts, dumps, now).1 == t
  {
  }

  /**
   * A lead whose row the database takes, seen for the first time, becomes
   * a new row stamped `now`; a known one is merged into its row, keeping
   * the stored name and creation time. No other row changes.
   */
  lemma SaveStoresLead(lead: map<string, Json>, t: Table, accepts: (Json, Row) -> bool,
                       dumps: Json -> string, now: string)
    requires !AgeRuleRaises(lead)
    requires LeadUrl(lead) != JNull
    requires accepts(LeadUrl(lead), LeadRow(lead, dumps, now))
    ensures var key := PyStr(LeadUrl(lead));
            var t' := Save(true, lead, t, accepts, dumps, now).1;
            Save(true, lead, t, accepts, dumps, now).0 &&
            key in t' &&
            (forall k :: k in t && k != key ==> k in t' && t'[k] == t[k]) &&
            (key !in t ==> t'[key].name == LeadName(lead) && t'[key].createdAt == now) &&
            (key in t ==> t'[key].name == t[key].name && t'[key].createdAt == t[key].createdAt) &&
            t'[key].enrichedAt == now &&
            (Get(lead, "phone") != JNull ==> t'[key].phone == lead["phone"])
  {
    UpsertFrame(t, PyStr(LeadUrl(lead)), LeadRow(lead, dumps, now));
  }
}
