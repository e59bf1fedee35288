/**
 * Committing a blueprint (scrapegoat/app/enrichment/blueprint_commit.py):
 * the blueprint's hash `blueprint:{domain}` gets six fields derived from
 * the blueprint, the domain is marked active, its pending draft is dropped
 * and it leaves the set of domains that still need mapping.
 *
 * The JSON encoder (`json.dumps`) and the clock are parameters; the
 * blueprint file write is a parameter saying whether it succeeds.
 */
module BlueprintCommit {
  import opened Wrappers
  import opened Json
  import Redis

  const NeedMappingKey: string := "dojo:domains_need_mapping"

  function BlueprintKey(domain: string): string { "blueprint:" + domain }
  function PendingKey(domain: string): string { "blueprint:" + domain + ":pending" }
  function ActiveKey(domain: string): string { "dojo:active_domain:" + domain }

  /** The six hash fields a commit writes. */
  const CommitFields: set<string> := {"data", "updated_at", "name_selector", "result_selector", "url", "extraction"}

  /** `blueprint.get("extraction") or blueprint.get("extractionPaths") or {}`. */
  function ExtractionOf(bp: map<string, Json>): Json {
    Or(Get(bp, "extraction"), Or(Get(bp, "extractionPaths"), JObj(map[])))
  }

  /**
   * The search-input selector: `name_selector`, then the extraction's
   * `name_input`, then its `search_input`, else "".
   */
  function NameSelector(bp: map<string, Json>, ext: map<string, Json>): string {
    PyStr(Or(Get(bp, "name_selector"), Or(Get(ext, "name_input"), Or(Get(ext, "search_input"), JStr("")))))
  }

  /** The result selector: `result_selector`, then the extraction's `result`, then its `result_list`, else "". */
  function ResultSelector(bp: map<string, Json>, ext: map<string, Json>): string {
    PyStr(Or(Get(bp, "result_selector"), Or(Get(ext, "result"), Or(Get(ext, "result_list"), JStr("")))))
  }

  /** The target URL: `targetUrl`, then `url`, else "". */
  function TargetUrl(bp: map<string, Json>): string {
    PyStr(Or(Get(bp, "targetUrl"), Or(Get(bp, "url"), JStr(""))))
  }

  /** The extraction map is the first truthy of `extraction` and `extractionPaths`, else empty. */
  lemma ExtractionOrder(bp: map<string, Json>)
    ensures Get(bp, "extraction").Truthy() ==> ExtractionOf(bp) == bp["extraction"]
    ensures !Get(bp, "extraction").Truthy() && Get(bp, "extractionPaths").Truthy() ==> ExtractionOf(bp) == bp["extractionPaths"]
    ensures !Get(bp, "extraction").Truthy() && !Get(bp, "extractionPaths").Truthy() ==> ExtractionOf(bp) == JObj(map[])
  {
  }

  /** Each selector is the first truthy candidate in the source's order, else "". */
  lemma SelectorOrder(bp: map<string, Json>, ext: map<string, Json>)
    ensures Get(bp, "name_selector").Truthy() ==> NameSelector(bp, ext) == PyStr(bp["name_selector"])
    ensures !Get(bp, "name_selector").Truthy() && Get(ext, "name_input").Truthy() ==> NameSelector(bp, ext) == PyStr(ext["name_input"])
    ensures (!Get(bp, "name_selector").Truthy() && !Get(ext, "name_input").Truthy() && Get(ext, "search_input").Truthy())
              ==> NameSelector(bp, ext) == PyStr(ext["search_input"])
    ensures (!Get(bp, "name_selector").Truthy() && !Get(ext, "name_input").Truthy() && !Get(ext, "search_input").Truthy())
              ==> NameSelector(bp, ext) == ""
    ensures Get(bp, "result_selector").Truthy() ==> ResultSelector(bp, ext) == PyStr(bp["result_selector"])
    ensures !Get(bp, "result_selector").Truthy() && Get(ext, "result").Truthy() ==> ResultSelector(bp, ext) == PyStr(ext["result"])
    ensures (!Get(bp, "result_selector").Truthy() && !Get(ext, "result").Truthy() && Get(ext, "result_list").Truthy())
              ==> ResultSelector(bp, ext) == PyStr(ext["result_list"])
    ensures (!Get(bp, "result_selector").Truthy() && !Get(ext, "result").Truthy() && !Get(ext, "result_list").Truthy())
              ==> ResultSelector(bp, ext) == ""
    ensures Get(bp, "targetUrl").Truthy() ==> TargetUrl(bp) == PyStr(bp["targetUrl"])
    ensures !Get(bp, "targetUrl").Truthy() && Get(bp, "url").Truthy() ==> TargetUrl(bp) == PyStr(bp["url"])
    ensures !Get(bp, "targetUrl").Truthy() && !Get(bp, "url").Truthy() ==> TargetUrl(bp) == ""
  {
  }

  /**
   * Whether both selectors can be read: `ext.get` is reached only when the
   * blueprint's own selector is falsy, and raises unless `ext` is a dict.
   */
  predicate SelectorsReadable(bp: map<string, Json>, ext: Json) {
    ext.JObj? || (Get(bp, "name_selector").Truthy() && Get(bp, "result_selector").Truthy())
  }

  /** The entries `ext.get` would look in; never consulted when `ext` is not a dict and the selectors are readable. */
  function ExtFields(ext: Json): map<string, Json> {
    if ext.JObj? then ext.fields else map[]
  }

  /** The hash fields written for a blueprint whose extraction is `ext`. */
  function Mapping(bp: map<string, Json>, ext: Json, now: string, dumps: Json -> string)
    : (m: map<string, string>)
    ensures m.Keys == CommitFields
  {
    map[
      "data" := dumps(JObj(bp)),
      "updated_at" := now,
      "name_selector" := NameSelector(bp, ExtFields(ext)),
      "result_selector" := ResultSelector(bp, ExtFields(ext)),
      "url" := TargetUrl(bp),
      "extraction" := dumps(ext)]
  }

  /** How a commit ends: it completes, or it raises part-way. */
  datatype CommitStatus =
    | Committed
    | ExtractionNotDict   // `ext.get` reached on a non-dict raises before anything is written
    | FileWriteFailed     // the blueprint file could not be written, after the hash was

  /**
   * The state after `SET ak 1`, `DEL pk` and `SREM nk member`, part by
   * part (`FinishIsCommands` shows it is what the three commands give).
   */
  function FinishAt(db: Redis.Db, ak: string, pk: string, nk: string, member: string): Redis.Db {
    var rest := db.Members(nk) - {member};
    Redis.Db(
      (db.strings - {ak, pk})[ak := "1"],
      db.hashes - {ak, pk},
      if rest == {} then db.sets - {ak, pk, nk} else (db.sets - {ak, pk})[nk := rest],
      db.lists - {ak, pk})
  }

  /** The store effects after the hash write: mark active, drop the draft, leave the need-mapping set. */
  function Finish(db: Redis.Db, domain: string): Redis.Db {
    FinishAt(db, ActiveKey(domain), PendingKey(domain), NeedMappingKey, domain)
  }

  lemma SetDelEffect(db: Redis.Db, ak: string, pk: string)
    requires ak != pk
    ensures var b := db.Set(ak, "1").Del(pk);
            b.strings == (db.strings - {ak, pk})[ak := "1"]
            && b.hashes == db.hashes - {ak, pk}
            && b.lists == db.lists - {ak, pk}
            && b.sets == db.sets - {ak, pk}
  {
    var a := db.Set(ak, "1");
    assert a.strings == (db.strings - {ak})[ak := "1"];
    assert a.hashes == db.hashes - {ak} && a.lists == db.lists - {ak} && a.sets == db.sets - {ak};
  }

  /** For three distinct keys, `FinishAt` is the effect of the three commands in order. */
  lemma FinishIsCommands(db: Redis.Db, ak: string, pk: string, nk: string, member: string)
    requires ak != pk && ak != nk && pk != nk
    ensures db.Set(ak, "1").Del(pk).SRem(nk, member) == FinishAt(db, ak, pk, nk, member)
  {
    var b := db.Set(ak, "1").Del(pk);
    SetDelEffect(db, ak, pk);
    var c := b.SRem(nk, member);
    var f := FinishAt(db, ak, pk, nk, member);
    assert b.Members(nk) == db.Members(nk);
    assert c.sets == f.sets;
    DbEqual(c, f);
  }

  lemma DbEqual(a: Redis.Db, b: Redis.Db)
    requires a.strings == b.strings && a.hashes == b.hashes && a.sets == b.sets && a.lists == b.lists
    ensures a == b
  {
  }

  /** `commit_blueprint_impl(domain, blueprint, r)` on the store's state. */
  function Commit(db: Redis.Db, domain: string, bp: map<string, Json>, now: string, dumps: Json -> string, fileWriteOk: bool)
    : (r: (CommitStatus, Redis.Db))
    ensures r.0 == ExtractionNotDict <==>
              !ExtractionOf(bp).JObj? && (!Get(bp, "name_selector").Truthy() || !Get(bp, "result_selector").Truthy())
    ensures r.0 == ExtractionNotDict ==> r.1 == db
    ensures r.0 == FileWriteFailed <==> SelectorsReadable(bp, ExtractionOf(bp)) && !fileWriteOk
  {
    var ext := ExtractionOf(bp);
    if !SelectorsReadable(bp, ext) then (ExtractionNotDict, db)
    else
      var hashed := db.HSet(BlueprintKey(domain), Mapping(bp, ext, now, dumps));
      if !fileWriteOk then (FileWriteFailed, hashed) else (Committed, Finish(hashed, domain))
  }

  // ---------------------------------------------------------------------
  // What a completed commit leaves in the store
  // ---------------------------------------------------------------------

  /** The keys a commit touches are distinct from one another. */
  lemma KeysDiffer(domain: string, other: string)
    ensures ActiveKey(domain) != BlueprintKey(other)
    ensures PendingKey(domain) != BlueprintKey(domain)
    ensures ActiveKey(domain) != PendingKey(domain)
    ensures ActiveKey(domain) != NeedMappingKey && PendingKey(domain) != NeedMappingKey
    ensures BlueprintKey(domain) != NeedMappingKey
  {
    assert ActiveKey(domain)[0] == 'd' && BlueprintKey(other)[0] == 'b';
    assert |PendingKey(domain)| == |BlueprintKey(domain)| + 8;
    assert PendingKey(domain)[0] == 'b' && BlueprintKey(domain)[0] == 'b' && NeedMappingKey[0] == 'd';
    assert ActiveKey(domain)[5] == 'a' && NeedMappingKey[5] == 'd';
  }

  /** The hash of the blueprint key after `Finish` is the one written before it. */
  lemma FinishKeepsHash(db: Redis.Db, domain: string, other: string)
    requires BlueprintKey(other) != PendingKey(domain)
    ensures Finish(db, domain).HGetAll(BlueprintKey(other)) == db.HGetAll(BlueprintKey(other))
  {
    KeysDiffer(domain, other);
  }

  /**
   * A completed commit writes exactly the six fields: the other fields of
   * the hash (such as the `{field}_x`/`{field}_y` drift keys) keep their
   * values.
   */
  lemma CommitWritesSixFields(db: Redis.Db, domain: string, bp: map<string, Json>, now: string,
                              dumps: Json -> string, fileWriteOk: bool)
    requires SelectorsReadable(bp, ExtractionOf(bp))
    ensures var after := Commit(db, domain, bp, now, dumps, fileWriteOk).1.HGetAll(BlueprintKey(domain));
            var before := db.HGetAll(BlueprintKey(domain));
            after.Keys == before.Keys + CommitFields
            && (forall f :: f in before && f !in CommitFields ==> after[f] == before[f])
            && after["name_selector"] == NameSelector(bp, ExtFields(ExtractionOf(bp)))
            && after["result_selector"] == ResultSelector(bp, ExtFields(ExtractionOf(bp)))
            && after["url"] == TargetUrl(bp)
            && after["updated_at"] == now
            && after["data"] == dumps(JObj(bp))
            && after["extraction"] == dumps(ExtractionOf(bp))
  {
    var m := Mapping(bp, ExtractionOf(bp), now, dumps);
    FinishKeepsHash(db.HSet(BlueprintKey(domain), m), domain, domain);
    Redis.HSetFields(db, BlueprintKey(domain), m);
  }

  /**
   * A blueprint with both selectors set is committed whatever its
   * extraction holds: a list is never asked for `.get`, the selectors are
   * the blueprint's own, and the list is stored as the extraction.
   */
  lemma SelectorsSetSkipExtraction(db: Redis.Db, domain: string, bp: map<string, Json>, now: string,
                                   dumps: Json -> string)
    requires Get(bp, "name_selector").Truthy() && Get(bp, "result_selector").Truthy()
    ensures var (status, db') := Commit(db, domain, bp, now, dumps, true);
            var after := db'.HGetAll(BlueprintKey(domain));
            status == Committed
            && after["name_selector"] == PyStr(bp["name_selector"])
            && after["result_selector"] == PyStr(bp["result_selector"])
            && after["extraction"] == dumps(ExtractionOf(bp))
  {
    CommitWritesSixFields(db, domain, bp, now, dumps, true);
  }

  /** After a completed commit the domain is active, has no draft and no longer needs mapping. */
  lemma CommitClearsNeedsMapping(db: Redis.Db, domain: string, bp: map<string, Json>, now: string, dumps: Json -> string)
    requires Commit(db, domain, bp, now, dumps, true).0 == Committed
    ensures var after := Commit(db, domain, bp, now, dumps, true).1;
            !after.Exists(PendingKey(domain))
            && domain !in after.Members(NeedMappingKey)
            && after.Get(ActiveKey(domain)) == Some("1")
  {
    KeysDiffer(domain, domain);
  }

  /**
   * The search-input selector never comes from the extraction's `name`
   * entry (a detail-page selector): with no `name_selector`, `name_input`
   * or `search_input` it is "" whatever `name` holds.
   */
  lemma NameSelectorIgnoresName(bp: map<string, Json>, ext: map<string, Json>, v: Json)
    requires !Get(bp, "name_selector").Truthy() && "name_input" !in ext && "search_input" !in ext
    ensures NameSelector(bp, ext["name" := v]) == ""
  {
  }

  /** A `None` result selector with no extraction fallback is stored as "". */
  lemma NoneResultSelectorIsEmpty(bp: map<string, Json>)
    requires "result_selector" in bp && bp["result_selector"] == JNull
    ensures ResultSelector(bp, map[]) == ""
  {
  }

  /** Writing the same fields again after finishing, and finishing again, is one write and one finish. */
  lemma RewriteAfterFinish(x: Redis.Db, k: string, ak: string, pk: string, nk: string, member: string,
                           m1: map<string, string>, m2: map<string, string>)
    requires m1.Keys <= m2.Keys
    requires k != ak && k != pk
    ensures FinishAt(FinishAt(x.HSet(k, m1), ak, pk, nk, member).HSet(k, m2), ak, pk, nk, member)
            == FinishAt(x.HSet(k, m2), ak, pk, nk, member)
  {
    var lhs := FinishAt(FinishAt(x.HSet(k, m1), ak, pk, nk, member).HSet(k, m2), ak, pk, nk, member);
    var rhs := FinishAt(x.HSet(k, m2), ak, pk, nk, member);
    RewriteHashesAfterFinish(x, k, ak, pk, nk, member, m1, m2);
    RewriteSetsAfterFinish(x, k, ak, pk, nk, member, m1, m2);
    DbEqual(lhs, rhs);
  }

  lemma RewriteHashesAfterFinish(x: Redis.Db, k: string, ak: string, pk: string, nk: string, member: string,
                                 m1: map<string, string>, m2: map<string, string>)
    requires m1.Keys <= m2.Keys
    requires k != ak && k != pk
    ensures FinishAt(FinishAt(x.HSet(k, m1), ak, pk, nk, member).HSet(k, m2), ak, pk, nk, member).hashes
            == FinishAt(x.HSet(k, m2), ak, pk, nk, member).hashes
  {
    var once := FinishAt(x.HSet(k, m1), ak, pk, nk, member);
    var h := x.HGetAll(k);
    assert once.HGetAll(k) == h + m1;
    assert h + m1 + m2 == h + m2;
    RewriteHashes(x.hashes, k, ak, pk, h + m1, h + m2);
  }

  lemma RewriteSetsAfterFinish(x: Redis.Db, k: string, ak: string, pk: string, nk: string, member: string,
                               m1: map<string, string>, m2: map<string, string>)
    ensures FinishAt(FinishAt(x.HSet(k, m1), ak, pk, nk, member).HSet(k, m2), ak, pk, nk, member).sets
            == FinishAt(x.HSet(k, m2), ak, pk, nk, member).sets
  {
    var once := FinishAt(x.HSet(k, m1), ak, pk, nk, member);
    assert once.sets == FinishAt(x, ak, pk, nk, member).sets;
    assert x.HSet(k, m2).sets == x.sets && once.HSet(k, m2).sets == once.sets;
    RefinishSets(x, ak, pk, nk, member);
  }

  /** Finishing twice leaves the sets as finishing once. */
  lemma RefinishSets(x: Redis.Db, ak: string, pk: string, nk: string, member: string)
    ensures FinishAt(FinishAt(x, ak, pk, nk, member), ak, pk, nk, member).sets == FinishAt(x, ak, pk, nk, member).sets
  {
    var once := FinishAt(x, ak, pk, nk, member);
    var rest := x.Members(nk) - {member};
    if rest == {} {
      assert once.Members(nk) == {};
    } else {
      assert once.Members(nk) == rest;
      assert once.Members(nk) - {member} == rest;
      assert once.sets == (x.sets - {ak, pk})[nk := rest];
      ReaddSame(x.sets - {ak, pk}, ak, pk, nk, rest);
    }
  }

  lemma ReaddSame(m: map<string, set<string>>, ak: string, pk: string, nk: string, v: set<string>)
    requires ak !in m && pk !in m
    ensures (m[nk := v] - {ak, pk})[nk := v] == m[nk := v]
  {
  }

  lemma RewriteHashes(hs: map<string, map<string, string>>, k: string, ak: string, pk: string,
                      v1: map<string, string>, v2: map<string, string>)
    requires k != ak && k != pk
    ensures (hs[k := v1] - {ak, pk})[k := v2] - {ak, pk} == hs[k := v2] - {ak, pk}
  {
  }

  /** A later commit of the same blueprint overwrites everything the earlier one wrote. */
  lemma CommitIdempotent(db: Redis.Db, domain: string, bp: map<string, Json>, t1: string, t2: string, dumps: Json -> string)
    requires Commit(db, domain, bp, t1, dumps, true).0 == Committed
    ensures Commit(Commit(db, domain, bp, t1, dumps, true).1, domain, bp, t2, dumps, true)
            == Commit(db, domain, bp, t2, dumps, true)
  {
    var ext := ExtractionOf(bp);
    KeysDiffer(domain, domain);
    RewriteAfterFinish(db, BlueprintKey(domain), ActiveKey(domain), PendingKey(domain), NeedMappingKey, domain,
                       Mapping(bp, ext, t1, dumps), Mapping(bp, ext, t2, dumps));
  }

  /**
   * `commit_blueprint_impl`: the hash write, the file write, then the
   * active marker, the draft deletion and the need-mapping removal. A
   * failed file write raises after the hash was written.
   */
  method CommitBlueprint(r: Redis.Store, domain: string, bp: map<string, Json>, now: string,
                         dumps: Json -> string, fileWriteOk: bool)
    returns (status: CommitStatus)
    modifies r
    ensures status == Commit(old(r.Snapshot()), domain, bp, now, dumps, fileWriteOk).0
    ensures r.Snapshot() == Commit(old(r.Snapshot()), domain, bp, now, dumps, fileWriteOk).1
  {
    var e := ExtractionOf(bp);
    if !SelectorsReadable(bp, e) {
      return ExtractionNotDict;
    }
    r.HSet(BlueprintKey(domain), Mapping(bp, e, now, dumps));
    if !fileWriteOk {
      return FileWriteFailed;
    }
    r.Set(ActiveKey(domain), "1");
    r.Del(PendingKey(domain));
    r.SRem(NeedMappingKey, domain);
    KeysDiffer(domain, domain);
    FinishIsCommands(old(r.Snapshot()).HSet(BlueprintKey(domain), Mapping(bp, e, now, dumps)),
                     ActiveKey(domain), PendingKey(domain), NeedMappingKey, domain);
    status := Committed;
  }
}
