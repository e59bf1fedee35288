/**
 * The blueprint loader station (scrapegoat/app/pipeline/stations/blueprint_loader.py):
 * picks the provider for a lead, derives the provider's domain, loads the
 * domain's blueprint from the store, falls back to one auto-mapping
 * attempt, and otherwise marks the domain as needing mapping. It never
 * stops the pipeline.
 *
 * The provider router and `json.loads` are parameters; the auto-mapping
 * attempt is the AutoMap model run on the same store.
 */
module BlueprintLoader {
  import opened Wrappers
  import opened Text
  import opened Json
  import Redis
  import PipelineTypes
  import AutoMap
  import BlueprintCommit

  const BlueprintPrefix: string := "BLUEPRINT:"
  const LegacyPrefix: string := "blueprint:"
  const DefaultProvider: string := "TruePeopleSearch"

  /** The fixed provider-to-domain table. */
  const ProviderDomains: map<string, string> := map[
    "FastPeopleSearch" := "fastpeoplesearch.com",
    "TruePeopleSearch" := "truepeoplesearch.com",
    "ZabaSearch" := "zabasearch.com",
    "SearchPeopleFree" := "searchpeoplefree.com",
    "ThatsThem" := "thatsthem.com",
    "AnyWho" := "anywho.com"
  ]

  /**
   * The provider: the router's answer when the router is available, did
   * not raise and named one; the default provider otherwise.
   */
  function ProviderOf(routerAvailable: bool, routed: Attempt<Option<string>>): (p: string)
    ensures p != ""
  {
    if routerAvailable && routed.Ok? && routed.value.Some? && routed.value.value != "" then routed.value.value
    else DefaultProvider
  }

  lemma ProviderDefaults(routerAvailable: bool, routed: Attempt<Option<string>>)
    ensures (!routerAvailable || routed.Raises? || routed == Ok(None) || routed == Ok(Some(""))) ==>
              ProviderOf(routerAvailable, routed) == DefaultProvider
    ensures routerAvailable && routed.Ok? && routed.value.Some? && routed.value.value != "" ==>
              ProviderOf(routerAvailable, routed) == routed.value.value
  {
  }

  /** The domain derived from a provider name outside the table. */
  function NameDomain(provider: string): (d: string)
    ensures |d| == |ReplaceAll(provider, " ", "")| + 4
    ensures d[|d| - 4..] == ".com"
  {
    Lower(ReplaceAll(provider, " ", "")) + ".com"
  }

  /** The provider's domain: from the table, else derived from its name. */
  function DomainOf(provider: string): (d: string)
    ensures provider in ProviderDomains ==> d == ProviderDomains[provider]
    ensures provider !in ProviderDomains ==> d == NameDomain(provider)
  {
    if provider in ProviderDomains then ProviderDomains[provider]
    else NameDomain(provider)
  }

  /** A derived domain ends in `.com` and carries no upper-case letter and no space. */
  lemma NameDomainShape(provider: string)
    ensures var d := NameDomain(provider);
            forall i :: 0 <= i < |d| ==> !IsUpper(d[i]) && d[i] != ' '
  {
    var d := NameDomain(provider);
    var core := ReplaceAll(provider, " ", "");
    var low := Lower(core);
    assert d == low + ".com";
    ReplaceSingleGone(provider, ' ');
    forall i | 0 <= i < |d| ensures !IsUpper(d[i]) && d[i] != ' ' {
      if i < |core| {
        assert d[i] == low[i] == LowerChar(core[i]);
        assert core[i] != ' ';
      } else {
        assert d[i] == ".com"[i - |core|];
      }
    }
  }

  /** The hash the station reads: `BLUEPRINT:{domain}` when non-empty, else `blueprint:{domain}`. */
  function FirstHash(db: Redis.Db, domain: string): (raw: map<string, string>)
    ensures db.HGetAll(BlueprintPrefix + domain) != map[] ==> raw == db.HGetAll(BlueprintPrefix + domain)
    ensures db.HGetAll(BlueprintPrefix + domain) == map[] ==> raw == db.HGetAll(LegacyPrefix + domain)
  {
    var primary := db.HGetAll(BlueprintPrefix + domain);
    if primary != map[] then primary else db.HGetAll(LegacyPrefix + domain)
  }

  /** `raw.get("data") or raw.get("blueprint_json")`, with a falsy result read as "". */
  function DataStr(raw: map<string, string>): (s: string)
    ensures s != "" <==> ("data" in raw && raw["data"] != "") || ("blueprint_json" in raw && raw["blueprint_json"] != "")
    ensures "data" in raw && raw["data"] != "" ==> s == raw["data"]
  {
    if "data" in raw && raw["data"] != "" then raw["data"]
    else if "blueprint_json" in raw then raw["blueprint_json"]
    else ""
  }

  /** The output for a parsed blueprint. */
  function Loaded(bp: Json, domain: string): map<string, Json> {
    map["_blueprint" := bp, "_blueprint_domain" := JStr(domain)]
  }

  /**
   * What a stored hash yields: the parsed `data`/`blueprint_json` string;
   * failing that, the parsed `instructions` wrapped with the domain;
   * failing that, nothing.
   */
  function FromHash(raw: map<string, string>, domain: string, parse: string -> Option<Json>): Option<map<string, Json>> {
    if raw == map[] then None
    else
      var dataStr := DataStr(raw);
      if dataStr != "" && parse(dataStr).Some? then Some(Loaded(parse(dataStr).value, domain))
      else if "instructions" in raw && parse(raw["instructions"]).Some? then
        Some(map["_blueprint" := JObj(map["instructions" := parse(raw["instructions"]).value, "domain" := JStr(domain)])])
      else None
  }

  /**
   * A hash with a parseable data string gives that blueprint and its
   * domain; only when it has none does a parseable instructions string
   * count; an empty hash gives nothing.
   */
  lemma FromHashOrder(raw: map<string, string>, domain: string, parse: string -> Option<Json>)
    ensures raw == map[] ==> FromHash(raw, domain, parse).None?
    ensures raw != map[] && DataStr(raw) != "" && parse(DataStr(raw)).Some? ==>
              FromHash(raw, domain, parse) == Some(Loaded(parse(DataStr(raw)).value, domain))
    ensures FromHash(raw, domain, parse).Some? && "_blueprint_domain" !in FromHash(raw, domain, parse).value ==>
              (DataStr(raw) == "" || parse(DataStr(raw)).None?) &&
              "instructions" in raw && parse(raw["instructions"]).Some? &&
              FromHash(raw, domain, parse).value["_blueprint"] ==
                JObj(map["instructions" := parse(raw["instructions"]).value, "domain" := JStr(domain)])
    ensures FromHash(raw, domain, parse).None? <==>
              raw == map[] ||
              ((DataStr(raw) == "" || parse(DataStr(raw)).None?) &&
               ("instructions" !in raw || parse(raw["instructions"]).None?))
  {
  }

  /** A hash read again after auto-mapping counts only through its data string. */
  function FromData(raw: map<string, string>, domain: string, parse: string -> Option<Json>): (r: Option<map<string, Json>>)
    ensures r.Some? <==> raw != map[] && DataStr(raw) != "" && parse(DataStr(raw)).Some?
    ensures r.Some? ==> r.value == Loaded(parse(DataStr(raw)).value, domain)
  {
    if raw != map[] && DataStr(raw) != "" && parse(DataStr(raw)).Some? then Some(Loaded(parse(DataStr(raw)).value, domain))
    else None
  }

  /** The re-read after a committed auto-mapping: either prefix may supply the blueprint. */
  function Reload(db: Redis.Db, domain: string, parse: string -> Option<Json>): Option<map<string, Json>> {
    var first := FromData(db.HGetAll(BlueprintPrefix + domain), domain, parse);
    if first.Some? then first else FromData(db.HGetAll(LegacyPrefix + domain), domain, parse)
  }

  /** The output when no blueprint was found. */
  function MappingRequired(domain: string): map<string, Json> {
    map["_mapping_required" := JStr(domain)]
  }

  /**
   * After the auto-mapping attempt left `db` with result `res`: the
   * reloaded blueprint when the attempt committed one, otherwise the
   * domain joins the need-mapping set and the output says mapping is
   * required.
   */
  function Fallback(db: Redis.Db, res: AutoMap.AutoMapResult, domain: string,
                    parse: string -> Option<Json>): (Redis.Db, map<string, Json>)
  {
    var reloaded := if res.committed && res.blueprint.Some? then Reload(db, domain, parse) else None;
    if reloaded.Some? then (db, reloaded.value)
    else (db.SAdd(BlueprintCommit.NeedMappingKey, domain), MappingRequired(domain))
  }

  /** The fallback: mapping is required exactly when nothing was reloaded, and then the domain is in the set. */
  lemma FallbackOutcome(db: Redis.Db, res: AutoMap.AutoMapResult, domain: string, parse: string -> Option<Json>)
    ensures var (db', out) := Fallback(db, res, domain, parse);
            ("_mapping_required" in out <==> !(res.committed && res.blueprint.Some? && Reload(db, domain, parse).Some?)) &&
            ("_mapping_required" in out ==>
               (out == MappingRequired(domain) &&
                db'.Members(BlueprintCommit.NeedMappingKey) == db.Members(BlueprintCommit.NeedMappingKey) + {domain})) &&
            ("_mapping_required" !in out ==> (db' == db && "_blueprint" in out && out["_blueprint_domain"] == JStr(domain)))
  {
  }

  /**
   * `process` once the domain is known, given what the auto-mapping
   * attempt would leave behind (the store and its result); the attempt is
   * consulted only when the store holds no usable blueprint.
   */
  function Outcome(db: Redis.Db, domain: string, parse: string -> Option<Json>,
                   attempt: (Redis.Db, AutoMap.AutoMapResult)): (Redis.Db, map<string, Json>)
  {
    var found := FromHash(FirstHash(db, domain), domain, parse);
    if found.Some? then (db, found.value) else Fallback(attempt.0, attempt.1, domain, parse)
  }

  /** `process` as a whole, from the store's state before it: the new state and the output data. */
  ghost function Process(db: Redis.Db, routerAvailable: bool, routed: Attempt<Option<string>>,
                         parse: string -> Option<Json>, env: AutoMap.Oracles): (Redis.Db, map<string, Json>)
  {
    var domain := DomainOf(ProviderOf(routerAvailable, routed));
    Outcome(db, domain, parse, AutoMap.AttemptAutoMap(db, domain, None, env))
  }

  /**
   * The output holds exactly one of `_blueprint` and `_mapping_required`;
   * a stored blueprint leaves the store untouched, and a required mapping
   * names the domain and puts it in the need-mapping set.
   */
  lemma ProcessOutcome(db: Redis.Db, domain: string, parse: string -> Option<Json>,
                       attempt: (Redis.Db, AutoMap.AutoMapResult))
    ensures var (db', out) := Outcome(db, domain, parse, attempt);
            ("_blueprint" in out <==> "_mapping_required" !in out) &&
            (FromHash(FirstHash(db, domain), domain, parse).Some? ==> db' == db && "_blueprint" in out) &&
            ("_mapping_required" in out ==>
               (out == MappingRequired(domain) && domain in db'.Members(BlueprintCommit.NeedMappingKey)))
  {
    if FromHash(FirstHash(db, domain), domain, parse).None? {
      FallbackOutcome(attempt.0, attempt.1, domain, parse);
    }
  }

  /** Reads `BLUEPRINT:{domain}`, then `blueprint:{domain}` unless the first was non-empty, and parses the hash. */
  method LoadStored(r: Redis.Store, domain: string, parse: string -> Option<Json>)
    returns (found: Option<map<string, Json>>)
    ensures found == FromHash(FirstHash(r.Snapshot(), domain), domain, parse)
  {
    var prefixes := [BlueprintPrefix, LegacyPrefix];
    var raw: map<string, string> := map[];
    var i := 0;
    while i < |prefixes|
      invariant 0 <= i <= |prefixes|
      invariant i == 1 ==> raw == map[] && r.Snapshot().HGetAll(BlueprintPrefix + domain) == map[]
      invariant i == 2 ==> raw == FirstHash(r.Snapshot(), domain)
    {
      raw := r.HGetAll(prefixes[i] + domain);
      if raw != map[] {
        break;
      }
      i := i + 1;
    }
    assert raw == FirstHash(r.Snapshot(), domain);
    found := None;
    if raw != map[] {
      var dataStr := DataStr(raw);
      if dataStr != "" {
        var bp := parse(dataStr);
        if bp.Some? {
          return Some(Loaded(bp.value, domain));
        }
      }
      if "instructions" in raw {
        var instructions := parse(raw["instructions"]);
        if instructions.Some? {
          return Some(map["_blueprint" := JObj(map["instructions" := instructions.value, "domain" := JStr(domain)])]);
        }
      }
    }
  }

  /** The re-read after a committed auto-mapping: each prefix in turn, the first parseable data string wins. */
  method ReloadStored(r: Redis.Store, domain: string, parse: string -> Option<Json>)
    returns (found: Option<map<string, Json>>)
    ensures found == Reload(r.Snapshot(), domain, parse)
  {
    var prefixes := [BlueprintPrefix, LegacyPrefix];
    for j := 0 to |prefixes|
      invariant j == 1 ==> FromData(r.Snapshot().HGetAll(BlueprintPrefix + domain), domain, parse).None?
      invariant j == 2 ==> Reload(r.Snapshot(), domain, parse).None?
    {
      var raw := r.HGetAll(prefixes[j] + domain);
      if raw != map[] {
        var dataStr := DataStr(raw);
        if dataStr != "" {
          var bp := parse(dataStr);
          if bp.Some? {
            return Some(Loaded(bp.value, domain));
          }
        }
      }
    }
    found := None;
  }

  /**
   * `BlueprintLoaderStation.process` on store `r`. The station always lets
   * the pipeline continue.
   */
  method ProcessOnStore(r: Redis.Store, routerAvailable: bool, routed: Attempt<Option<string>>,
                        parse: string -> Option<Json>, env: AutoMap.Oracles)
    returns (out: map<string, Json>, condition: PipelineTypes.StopCondition)
    modifies r
    ensures condition == PipelineTypes.Continue
    ensures (r.Snapshot(), out) == Process(old(r.Snapshot()), routerAvailable, routed, parse, env)
  {
    condition := PipelineTypes.Continue;
    var provider := "";
    if routerAvailable && routed.Ok? && routed.value.Some? {
      provider := routed.value.value;
    }
    if provider == "" {
      provider := DefaultProvider;
    }
    var domain := DomainOf(provider);

    var found := LoadStored(r, domain, parse);
    if found.Some? {
      return found.value, condition;
    }

    var res := AutoMap.AttemptOnStore(r, domain, None, env);
    if res.committed && res.blueprint.Some? {
      found := ReloadStored(r, domain, parse);
      if found.Some? {
        return found.value, condition;
      }
    }
    r.SAdd(BlueprintCommit.NeedMappingKey, domain);
    out := MappingRequired(domain);
  }
}
