/**
 * The shield in front of the golden record: entropy-based poison
 * detection (a provider returning the same phone or email for more than
 * three distinct leads is blacklisted), cross-source consensus for
 * high-value leads, and the vision-confidence flag that asks for a second
 * reading of the page.
 *
 * Redis keys expire in the deployed system; here a key written with an
 * expiry is simply set. The SHA-256 digest is a parameter, and so is the
 * webhook notification, which is not modelled.
 */
module PoisonValidator {
  import opened Wrappers
  import opened Text
  import opened Json
  import Redis

  const PoisonPrefix := "poison:p:"
  const BlacklistPrefix := "blacklist:provider:"
  /** More distinct leads than this sharing one value marks the provider as poisoned. */
  const PoisonLimit := 3
  const OlmocrThreshold := 0.95

  // ---------------------------------------------------------------------
  // Normalisation
  // ---------------------------------------------------------------------

  /**
   * `_norm_val`: `(v or "").strip()` lower-cased. A truthy value that is
   * not a string has no `strip` and raises.
   */
  function NormVal(v: Json): (r: Attempt<string>)
    ensures !v.Truthy() ==> r == Ok("")
    ensures v.JStr? ==> r == Ok(Lower(Strip(v.s)))
  {
    var s := if v.Truthy() then v else JStr("");
    if s.JStr? then Ok(Lower(Strip(s.s))) else Raises
  }

  /** Normalising a normalised value changes nothing. */
  lemma NormValIdempotent(s: string)
    ensures NormVal(JStr(NormVal(JStr(s)).value)) == NormVal(JStr(s))
  {
    var n := Lower(Strip(s));
    StripLower(Strip(s));
    StripIdempotent(s);
    LowerIdempotent(Strip(s));
  }

  /** Case and surrounding whitespace do not change the normalised value. */
  lemma NormValIgnoresCaseAndPadding(s: string)
    ensures NormVal(JStr(Lower(s))) == NormVal(JStr(s))
    ensures NormVal(JStr(" " + s)) == NormVal(JStr(s))
  {
    StripLower(s);
    LowerIdempotent(Strip(s));
    assert (" " + s)[1..] == s;
    assert LStrip(" " + s) == LStrip(s);
  }

  /** `_hash_val`: the digest of the normalised text (the digest itself is a parameter). */
  function HashVal(v: string, sha: string -> string): string {
    sha(Lower(Strip(v)))
  }

  /** Hashing a normalised value hashes that value. */
  lemma HashOfNormalised(s: string, sha: string -> string)
    ensures HashVal(NormVal(JStr(s)).value, sha) == sha(NormVal(JStr(s)).value)
  {
    NormValIdempotent(s);
  }

  // ---------------------------------------------------------------------
  // Blacklist and poison detection
  // ---------------------------------------------------------------------

  function BlacklistKey(provider: string): string {
    BlacklistPrefix + provider
  }

  /** `is_provider_blacklisted`. */
  predicate IsBlacklisted(db: Redis.Db, provider: string) {
    db.Exists(BlacklistKey(provider))
  }

  /** `blacklist_provider`: the flag key is set. */
  function Blacklist(db: Redis.Db, provider: string): (r: Redis.Db)
    ensures IsBlacklisted(r, provider)
  {
    db.Set(BlacklistKey(provider), "1")
  }

  function PoisonKey(provider: string, dataType: string, digest: string): string {
    PoisonPrefix + provider + ":" + dataType + ":" + digest
  }

  /** What recording a data point returned, and the store after it. */
  datatype Recorded = Recorded(poisoned: bool, db: Redis.Db)

  /**
   * `record_data_point`: only non-empty phones and emails are recorded; the
   * lead joins the set of leads that received this value from this
   * provider, and more than three of them blacklists the provider.
   */
  function Record(db: Redis.Db, provider: string, dataType: string, value: Json, leadId: string,
                  sha: string -> string): Attempt<Recorded>
  {
    match NormVal(value)
    case Raises => Raises
    case Ok(v) =>
      if v == "" || !(dataType == "phone" || dataType == "email") then Ok(Recorded(false, db))
      else Ok(RecordValue(db, provider, dataType, v, leadId, sha))
  }

  /** Recording a normalised, non-empty phone or email. */
  function RecordValue(db: Redis.Db, provider: string, dataType: string, v: string, leadId: string,
                       sha: string -> string): Recorded
  {
    var key := PoisonKey(provider, dataType, HashVal(v, sha));
    var db' := db.SAdd(key, leadId);
    if |db'.Members(key)| > PoisonLimit then Recorded(true, Blacklist(db', provider))
    else Recorded(false, db')
  }

  /** An empty value or another data type is ignored: `False`, store untouched. */
  lemma RecordIgnores(db: Redis.Db, provider: string, dataType: string, value: Json, leadId: string,
                      sha: string -> string)
    requires NormVal(value) == Ok("") || (NormVal(value).Ok? && dataType != "phone" && dataType != "email")
    ensures Record(db, provider, dataType, value, leadId, sha) == Ok(Recorded(false, db))
  {
  }

  /**
   * A recorded value is poisoned exactly when more than three distinct
   * leads (this one included) received it, and then the provider is
   * blacklisted.
   */
  lemma RecordThreshold(db: Redis.Db, provider: string, dataType: string, v: string, leadId: string,
                        sha: string -> string)
    ensures var key := PoisonKey(provider, dataType, HashVal(v, sha));
            var r := RecordValue(db, provider, dataType, v, leadId, sha);
            (r.poisoned <==> |db.Members(key) + {leadId}| > PoisonLimit) &&
            (r.poisoned ==> IsBlacklisted(r.db, provider)) &&
            r.db.Members(key) == db.Members(key) + {leadId}
  {
    var key := PoisonKey(provider, dataType, HashVal(v, sha));
    var db' := db.SAdd(key, leadId);
    assert key != BlacklistKey(provider) by {
      assert key[0] == 'p' && BlacklistKey(provider)[0] == 'b';
    }
    assert Blacklist(db', provider).Members(key) == db'.Members(key);
  }

  /** Recording the same lead twice counts it once. */
  lemma RecordTwice(db: Redis.Db, provider: string, dataType: string, v: string, leadId: string,
                    sha: string -> string)
    ensures var r1 := RecordValue(db, provider, dataType, v, leadId, sha);
            var r2 := RecordValue(r1.db, provider, dataType, v, leadId, sha);
            r2.poisoned == r1.poisoned
  {
    RecordThreshold(db, provider, dataType, v, leadId, sha);
    var r1 := RecordValue(db, provider, dataType, v, leadId, sha);
    RecordThreshold(r1.db, provider, dataType, v, leadId, sha);
  }

  /** `blacklist_provider` on the connection. */
  method BlacklistProvider(r: Redis.Store, provider: string)
    modifies r
    ensures r.Snapshot() == Blacklist(old(r.Snapshot()), provider)
  {
    r.Set(BlacklistKey(provider), "1");
  }

  /** `is_provider_blacklisted` on the connection. */
  method IsProviderBlacklisted(r: Redis.Store, provider: string) returns (b: bool)
    ensures b == IsBlacklisted(r.Snapshot(), provider)
  {
    b := r.Exists(BlacklistKey(provider));
  }

  /** `record_data_point` on the connection. */
  method RecordDataPoint(r: Redis.Store, provider: string, dataType: string, value: Json, leadId: string,
                         sha: string -> string) returns (res: Attempt<bool>)
    modifies r
    ensures var spec := Record(old(r.Snapshot()), provider, dataType, value, leadId, sha);
            (res.Raises? <==> spec.Raises?) &&
            (spec.Raises? ==> r.Snapshot() == old(r.Snapshot())) &&
            (spec.Ok? ==> res.value == spec.value.poisoned && r.Snapshot() == spec.value.db)
  {
    var v := NormVal(value);
    if v.Raises? {
      return Raises;
    }
    if v.value == "" || !(dataType == "phone" || dataType == "email") {
      return Ok(false);
    }
    var key := PoisonKey(provider, dataType, HashVal(v.value, sha));
    r.SAdd(key, leadId);
    RecordThreshold(old(r.Snapshot()), provider, dataType, v.value, leadId, sha);
    var n := r.SCard(key);
    if n > PoisonLimit {
      BlacklistProvider(r, provider);
      return Ok(true);
    }
    return Ok(false);
  }

  // ---------------------------------------------------------------------
  // Cross-source consensus
  // ---------------------------------------------------------------------

  /** `(x or "").strip()` on a lookup chain whose last operand is `""`. */
  function StrippedOr(v: Json): Attempt<string> {
    var s := Or(v, JStr(""));
    if s.JStr? then Ok(Strip(s.s)) else Raises
  }

  /** `is_high_value`: the lead names both a company and a title. */
  function IsHighValue(lead: map<string, Json>): Attempt<bool> {
    match StrippedOr(Or(Get(lead, "company"), Get(lead, "Company")))
    case Raises => Raises
    case Ok(c) =>
      match StrippedOr(Or(Or(Get(lead, "title"), Get(lead, "Title")), Get(lead, "headline")))
      case Raises => Raises
      case Ok(t) => Ok(c != "" && t != "")
  }

  lemma HighValueNeedsBoth(lead: map<string, Json>)
    requires IsHighValue(lead) == Ok(true)
    ensures Or(Get(lead, "company"), Get(lead, "Company")).Truthy()
    ensures Or(Or(Get(lead, "title"), Get(lead, "Title")), Get(lead, "headline")).Truthy()
  {
  }

  /**
   * `_norm_comp`: equal after normalisation, or carrying the same
   * non-empty digits (a phone written two ways).
   */
  function NormComp(a: Json, b: Json): Attempt<bool> {
    match NormVal(a)
    case Raises => Raises
    case Ok(sa) =>
      match NormVal(b)
      case Raises => Raises
      case Ok(sb) => Ok(sa == sb || (Digits(sa) != "" && Digits(sa) == Digits(sb)))
  }

  /** Comparison is symmetric, raising included, and every comparable value equals itself. */
  lemma NormCompSymmetric(a: Json, b: Json)
    ensures NormComp(a, b) == NormComp(b, a)
    ensures NormVal(a).Ok? ==> NormComp(a, a) == Ok(true)
    ensures NormComp(a, b).Raises? <==> NormVal(a).Raises? || NormVal(b).Raises?
  {
  }

  /** Two strings with the same digits compare equal when they have any. */
  lemma SameDigitsCompareEqual(x: string, y: string)
    requires Digits(Lower(Strip(x))) == Digits(Lower(Strip(y))) != ""
    ensures NormComp(JStr(x), JStr(y)) == Ok(true)
  {
  }

  const ComparedFields: seq<string> := ["phone", "email", "age"]

  /** `r.get(k) or r.get("chimera_" + k)`. */
  function FieldOf(r: map<string, Json>, k: string): Json {
    Or(Get(r, k), Get(r, "chimera_" + k))
  }

  /** One field of the comparison: absent from both counts as the same. */
  function SameField(r1: map<string, Json>, r2: map<string, Json>, k: string): Attempt<bool> {
    var v1, v2 := FieldOf(r1, k), FieldOf(r2, k);
    if v1 == JNull && v2 == JNull then Ok(true) else NormComp(v1, v2)
  }

  /** The loop of `results_differ_significantly` over the fields still to compare. */
  function DifferOn(r1: map<string, Json>, r2: map<string, Json>, keys: seq<string>): Attempt<bool>
    decreases |keys|
  {
    if keys == [] then Ok(false)
    else
      match SameField(r1, r2, keys[0])
      case Raises => Raises
      case Ok(same) => if !same then Ok(true) else DifferOn(r1, r2, keys[1..])
  }

  /** `results_differ_significantly`. */
  function ResultsDiffer(r1: map<string, Json>, r2: map<string, Json>): Attempt<bool> {
    DifferOn(r1, r2, ComparedFields)
  }

  /** A field on which two results disagree: present in one and compared unequal. */
  predicate Disagree(r1: map<string, Json>, r2: map<string, Json>, k: string) {
    SameField(r1, r2, k) == Ok(false)
  }

  /** A field the loop can compare without raising. */
  predicate Comparable(r1: map<string, Json>, r2: map<string, Json>, k: string) {
    SameField(r1, r2, k).Ok?
  }

  /** Fields absent from both results never disagree. */
  lemma AbsentFieldsAgree(r1: map<string, Json>, r2: map<string, Json>, k: string)
    requires FieldOf(r1, k) == JNull && FieldOf(r2, k) == JNull
    ensures Comparable(r1, r2, k) && !Disagree(r1, r2, k)
  {
  }

  /**
   * When every field compares without raising, the results differ exactly
   * when some field disagrees.
   */
  lemma {:induction false} DifferOnMeaning(r1: map<string, Json>, r2: map<string, Json>, keys: seq<string>)
    requires forall i :: 0 <= i < |keys| ==> Comparable(r1, r2, keys[i])
    ensures DifferOn(r1, r2, keys).Ok?
    ensures DifferOn(r1, r2, keys).value <==> exists i :: 0 <= i < |keys| && Disagree(r1, r2, keys[i])
    decreases |keys|
  {
    if keys != [] {
      var rest := keys[1..];
      assert forall i :: 0 <= i < |rest| ==> rest[i] == keys[i + 1];
      DifferOnMeaning(r1, r2, rest);
      if exists i :: 0 <= i < |rest| && Disagree(r1, r2, rest[i]) {
        var i :| 0 <= i < |rest| && Disagree(r1, r2, rest[i]);
        assert Disagree(r1, r2, keys[i + 1]);
      }
      if exists i :: 1 <= i < |keys| && Disagree(r1, r2, keys[i]) {
        var i :| 1 <= i < |keys| && Disagree(r1, r2, keys[i]);
        assert Disagree(r1, r2, rest[i - 1]);
      }
    }
  }

  /** A result never differs from itself. */
  lemma {:induction false} DifferOnSelf(r: map<string, Json>, keys: seq<string>)
    requires forall i :: 0 <= i < |keys| ==> NormVal(FieldOf(r, keys[i])).Ok?
    ensures DifferOn(r, r, keys) == Ok(false)
    decreases |keys|
  {
    if keys != [] {
      NormCompSymmetric(FieldOf(r, keys[0]), FieldOf(r, keys[0]));
      assert SameField(r, r, keys[0]) == Ok(true);
      DifferOnSelf(r, keys[1..]);
    }
  }

  lemma ResultsSelf(r: map<string, Json>)
    requires forall k :: k in ComparedFields ==> NormVal(FieldOf(r, k)).Ok?
    ensures ResultsDiffer(r, r) == Ok(false)
  {
    DifferOnSelf(r, ComparedFields);
  }

  const NeedsReconciliation := "NEEDS_RECONCILIATION"

  /** `check_cross_source`: the reconciliation flag, or `None`. */
  function CheckCrossSource(r1: map<string, Json>, r2: map<string, Json>): (r: Attempt<Option<string>>) {
    match ResultsDiffer(r1, r2)
    case Raises => Raises
    case Ok(d) => Ok(if d then Some(NeedsReconciliation) else None)
  }

  lemma CrossSourceFlag(r1: map<string, Json>, r2: map<string, Json>)
    requires forall k :: k in ComparedFields ==> Comparable(r1, r2, k)
    ensures CheckCrossSource(r1, r2).Ok?
    ensures CheckCrossSource(r1, r2).value == Some(NeedsReconciliation) <==>
            exists k :: k in ComparedFields && Disagree(r1, r2, k)
    ensures CheckCrossSource(r1, r2).value.None? <==>
            forall k :: k in ComparedFields ==> !Disagree(r1, r2, k)
  {
    DifferOnMeaning(r1, r2, ComparedFields);
  }

  // ---------------------------------------------------------------------
  // Vision confidence
  // ---------------------------------------------------------------------

  /** Python's `float(v)`. */
  function FloatOf(v: Json): Attempt<real> {
    match v
    case JNull => Raises
    case JBool(b) => Ok(if b then 1.0 else 0.0)
    case JInt(i) => Ok(i as real)
    case JFloat(x) => Ok(x)
    case JStr(s) => (match ParseFloat(s) case Some(x) => Ok(x) case None => Raises)
    case JList(_) => Raises
    case JObj(_) => Raises
  }

  /** `should_trigger_olmocr_verification`: `float(c or 1.0) < 0.95`. */
  function ShouldTriggerOlmocr(confidence: Json): Attempt<bool> {
    match FloatOf(Or(confidence, JFloat(1.0)))
    case Raises => Raises
    case Ok(x) => Ok(x < OlmocrThreshold)
  }

  /** Zero and `None` read as full confidence; a low positive number triggers. */
  lemma OlmocrFlag(x: real)
    ensures ShouldTriggerOlmocr(JNull) == Ok(false)
    ensures ShouldTriggerOlmocr(JFloat(0.0)) == Ok(false)
    ensures ShouldTriggerOlmocr(JInt(0)) == Ok(false)
    ensures x != 0.0 ==> ShouldTriggerOlmocr(JFloat(x)) == Ok(x < 0.95)
  {
  }

  /** A confidence given as text in scientific notation, "95e-2", is read as the number it writes. */
  lemma OlmocrScientificText(a: string, b: string)
    requires a != [] && AllDigits(a) && b != [] && AllDigits(b)
    ensures ShouldTriggerOlmocr(JStr(a + "e" + ("-" + b))) == Ok(NatOf(a) as real / Pow10(NatOf(b)) as real < 0.95)
  {
    ParseFloatNegativeExponent(a, b);
  }

  /** The confidence read: `vision_confidence`, else `confidence`, else 1.0. */
  function VisionConfidence(raw: map<string, Json>): (c: Json)
    ensures "vision_confidence" in raw ==> c == raw["vision_confidence"]
    ensures "vision_confidence" !in raw && "confidence" in raw ==> c == raw["confidence"]
    ensures "vision_confidence" !in raw && "confidence" !in raw ==> c == JFloat(1.0)
  {
    if "vision_confidence" in raw then raw["vision_confidence"]
    else if "confidence" in raw then raw["confidence"]
    else JFloat(1.0)
  }

  const NeedsOlmocr := "NEEDS_OLMOCR_VERIFICATION"

  /** `apply_consensus_protocol`: the verification flag when confidence is low. */
  function ApplyConsensus(raw: map<string, Json>): Attempt<map<string, Json>> {
    match ShouldTriggerOlmocr(VisionConfidence(raw))
    case Raises => Raises
    case Ok(t) => Ok(if t then map[NeedsOlmocr := JBool(true)] else map[])
  }

  lemma ConsensusFlag(raw: map<string, Json>)
    requires ShouldTriggerOlmocr(VisionConfidence(raw)).Ok?
    ensures ApplyConsensus(raw).Ok?
    ensures ApplyConsensus(raw).value.Keys <= {NeedsOlmocr}
    ensures NeedsOlmocr in ApplyConsensus(raw).value <==> ShouldTriggerOlmocr(VisionConfidence(raw)) == Ok(true)
    ensures "vision_confidence" !in raw && "confidence" !in raw ==> ApplyConsensus(raw) == Ok(map[])
  {
  }
}
