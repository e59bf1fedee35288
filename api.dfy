/**
 * The Scrapegoat HTTP API (scrapegoat/main.py), the parts with behaviour of
 * their own: listing and retrying leads from the dead-letter list, normalising the
 * domain of a pushed blueprint, and listing the spider files.
 *
 * `json.loads` and `json.dumps` are parameters; the file write of a saved
 * blueprint is a flag saying whether it succeeded.
 */
module Api {
  import opened Wrappers
  import opened Json
  import opened Text
  import Redis

  const FailedLeads: string := "failed_leads"
  const LeadsToEnrich: string := "leads_to_enrich"
  const RemovedMarker: string := "__REMOVED__"

  lemma ListsDiffer()
    ensures FailedLeads != LeadsToEnrich
  {
    assert FailedLeads[0] != LeadsToEnrich[0];
  }

  /** An endpoint's answer: the number of leads re-queued, or an HTTP error status. */
  datatype Reply = Retried(count: nat) | HttpError(status: nat)

  /** `lead_data.get("lead", lead_data)` on a parsed object. */
  function OriginalLead(fields: map<string, Json>): Json {
    if "lead" in fields then fields["lead"] else JObj(fields)
  }

  // ---------------------------------------------------------------------
  // GET /dlq
  // ---------------------------------------------------------------------

  /** The answer of `get_dlq`: the listed entries and the list's length, or 503. */
  datatype DlqReply = Listing(failedLeads: seq<map<string, Json>>, total: nat) | Unavailable

  /** `d.get(k, default)`. */
  function GetOr(d: map<string, Json>, k: string, default: Json): (r: Json)
    ensures k in d ==> r == d[k]
    ensures k !in d ==> r == default
  {
    if k in d then d[k] else default
  }

  /** An entry the listing can show: it does not parse, or parses to an object `.get` works on. */
  predicate Listable(parsed: Option<Json>) {
    parsed.None? || parsed.value.JObj?
  }

  /**
   * Entry `i` of the listing for the stored text `item`; `None` where the
   * text parses to something other than an object, on which `.get` raises.
   */
  function DlqEntry(i: nat, item: string, parse: string -> Option<Json>): (r: Option<map<string, Json>>)
    ensures r.Some? <==> Listable(parse(item))
    ensures r.Some? ==> r.value.Keys == {"index", "lead_data", "error", "retry_count", "failed_at"} &&
                        r.value["index"] == JInt(i)
    ensures r.Some? && parse(item).None? ==>
              r.value["lead_data"] == JObj(map["raw" := JStr(item)]) &&
              r.value["error"] == JStr("Failed to parse lead data") &&
              r.value["retry_count"] == JInt(0) && r.value["failed_at"] == JStr("Unknown")
    ensures r.Some? && parse(item).Some? ==>
              var f := parse(item).value.fields;
              r.value["lead_data"] == OriginalLead(f) &&
              r.value["error"] == GetOr(f, "error", JStr("Unknown error")) &&
              r.value["retry_count"] == GetOr(f, "retry_count", JInt(0)) &&
              r.value["failed_at"] == GetOr(f, "failed_at", JStr("Unknown"))
  {
    match parse(item)
    case None =>
      Some(map["index" := JInt(i), "lead_data" := JObj(map["raw" := JStr(item)]),
               "error" := JStr("Failed to parse lead data"), "retry_count" := JInt(0),
               "failed_at" := JStr("Unknown")])
    case Some(j) =>
      if !j.JObj? then None
      else
        Some(map["index" := JInt(i), "lead_data" := OriginalLead(j.fields),
                 "error" := GetOr(j.fields, "error", JStr("Unknown error")),
                 "retry_count" := GetOr(j.fields, "retry_count", JInt(0)),
                 "failed_at" := GetOr(j.fields, "failed_at", JStr("Unknown"))])
  }

  /** The loop over the fetched entries, numbered from 0; `None` once an entry makes `.get` raise. */
  function DlqEntries(items: seq<string>, parse: string -> Option<Json>): (r: Option<seq<map<string, Json>>>)
    ensures r.Some? <==> forall i :: 0 <= i < |items| ==> Listable(parse(items[i]))
    ensures r.Some? ==> |r.value| == |items| &&
                        forall i :: 0 <= i < |items| ==> Some(r.value[i]) == DlqEntry(i, items[i], parse)
    decreases |items|
  {
    if items == [] then Some([])
    else
      var init := items[..|items| - 1];
      assert forall i :: 0 <= i < |init| ==> init[i] == items[i];
      match DlqEntries(init, parse)
      case None => None
      case Some(es) =>
        match DlqEntry(|items| - 1, items[|items| - 1], parse)
        case None => None
        case Some(e) => Some(es + [e])
  }

  /**
   * `get_dlq`: the first entries of the dead-letter list as `LRANGE 0
   * (limit - 1)` returns them, listed, with the length of the whole list;
   * 503 when an entry makes `.get` raise.
   */
  function GetDlq(db: Redis.Db, limit: int, parse: string -> Option<Json>): DlqReply {
    var xs := db.List(FailedLeads);
    match DlqEntries(Redis.LRangeOf(xs, 0, limit - 1), parse)
    case None => Unavailable
    case Some(es) => Listing(es, |xs|)
  }

  /**
   * The listing shows the first `limit` entries of the dead-letter list
   * (all of them for 0, all but the last `-limit` for a negative limit),
   * entry i at position i, and counts the whole list; it is refused with
   * 503 exactly when one of those entries parses to a non-object.
   */
  lemma GetDlqOutcome(db: Redis.Db, limit: int, parse: string -> Option<Json>)
    ensures var xs := db.List(FailedLeads);
            var n := if limit > 0 then (if limit < |xs| then limit else |xs|)
                     else if |xs| + limit > 0 then |xs| + limit else 0;
            var shown := xs[..n];
            var reply := GetDlq(db, limit, parse);
            (reply.Unavailable? <==> exists i :: 0 <= i < n && !Listable(parse(xs[i]))) &&
            (reply.Listing? ==> reply.total == |xs| && |reply.failedLeads| == n &&
                                forall i :: 0 <= i < n ==> Some(reply.failedLeads[i]) == DlqEntry(i, xs[i], parse))
  {
    var xs := db.List(FailedLeads);
    Redis.LRangeOfHead(xs, limit);
  }

  /** The loop of `get_dlq` over the fetched entries. */
  method ListEntries(raw: seq<string>, parse: string -> Option<Json>) returns (r: Option<seq<map<string, Json>>>)
    ensures r == DlqEntries(raw, parse)
  {
    var entries: seq<map<string, Json>> := [];
    for i := 0 to |raw|
      invariant DlqEntries(raw[..i], parse) == Some(entries)
    {
      var entry := DlqEntry(i, raw[i], parse);
      if entry.None? {
        NoEntryNoListing(raw, i, parse);
        return None;
      }
      DlqEntriesStep(raw, i, parse, entries);
      entries := entries + [entry.value];
    }
    assert raw[..|raw|] == raw;
    r := Some(entries);
  }

  /** The endpoint: it reads the store and changes nothing. */
  method GetDlqOnStore(r: Redis.Store, limit: int, parse: string -> Option<Json>) returns (reply: DlqReply)
    ensures reply == GetDlq(r.Snapshot(), limit, parse)
  {
    var raw := r.LRangeSlice(FailedLeads, 0, limit - 1);
    var listed := ListEntries(raw, parse);
    if listed.None? {
      return Unavailable;
    }
    var total := r.LLen(FailedLeads);
    reply := Listing(listed.value, total);
  }

  lemma DlqEntriesStep(items: seq<string>, i: nat, parse: string -> Option<Json>, es: seq<map<string, Json>>)
    requires i < |items| && DlqEntries(items[..i], parse) == Some(es) && DlqEntry(i, items[i], parse).Some?
    ensures DlqEntries(items[..i + 1], parse) == Some(es + [DlqEntry(i, items[i], parse).value])
  {
    var p := items[..i + 1];
    assert p[..|p| - 1] == items[..i];
    assert p[|p| - 1] == items[i];
  }

  /** One entry `.get` cannot read makes the whole listing fail. */
  lemma NoEntryNoListing(items: seq<string>, i: nat, parse: string -> Option<Json>)
    requires i < |items| && DlqEntry(i, items[i], parse).None?
    ensures DlqEntries(items, parse).None?
  {
  }

  // ---------------------------------------------------------------------
  // POST /dlq/retry/{index}
  // ---------------------------------------------------------------------

  /**
   * `retry_one`: read the entry at `index` (negative indexes count from the
   * tail); 404 when there is none, 400 when it does not parse, 500 when it
   * parses to something other than an object. Otherwise push the original
   * lead to the work queue, overwrite the entry with a marker and remove
   * the first marker from the head.
   */
  function RetryOne(db: Redis.Db, index: int, parse: string -> Option<Json>, dumps: Json -> string)
    : (r: (Reply, Redis.Db))
    ensures r.0 == HttpError(404) || r.0 == HttpError(400) ==> r.1 == db
    ensures r.0.Retried? ==> r.0.count == 1
    ensures r.0.HttpError? ==> r.0.status in {400, 404, 500}
  {
    var one := Redis.LRangeOne(db.List(FailedLeads), index);
    if one == [] then (HttpError(404), db)
    else match parse(one[0])
      case None => (HttpError(400), db)
      case Some(j) =>
        if !j.JObj? then (HttpError(500), db)
        else
          var db1 := db.LPush(LeadsToEnrich, dumps(OriginalLead(j.fields)));
          match Redis.LSet(db1.List(FailedLeads), index, RemovedMarker)
          case None => (HttpError(500), db1)
          case Some(marked) =>
            (Retried(1), db1.PutList(FailedLeads, marked).PutList(FailedLeads, Redis.LRemFirst(marked, RemovedMarker)))
  }

  /** An index outside the list gives 404, and only such an index does; nothing changes. */
  lemma RetryOneNotFound(db: Redis.Db, index: int, parse: string -> Option<Json>, dumps: Json -> string)
    ensures var xs := db.List(FailedLeads);
            (RetryOne(db, index, parse, dumps).0 == HttpError(404) <==> !(-|xs| <= index < |xs|)) &&
            (RetryOne(db, index, parse, dumps).0 == HttpError(404) ==> RetryOne(db, index, parse, dumps).1 == db)
  {
  }

  /** An entry that does not parse gives 400 and changes nothing. */
  lemma RetryOneMalformed(db: Redis.Db, index: int, parse: string -> Option<Json>, dumps: Json -> string)
    requires var xs := db.List(FailedLeads);
             var p := Redis.Position(|xs|, index); p.Some? && parse(xs[p.value]).None?
    ensures RetryOne(db, index, parse, dumps) == (HttpError(400), db)
  {
  }

  /**
   * A parseable entry at position p: its original lead goes to the head of
   * the work queue and, when no marker sits before it, exactly that entry
   * leaves the dead-letter list.
   */
  lemma RetryOneRequeues(db: Redis.Db, index: int, parse: string -> Option<Json>, dumps: Json -> string,
                         fields: map<string, Json>)
    requires var xs := db.List(FailedLeads);
             var p := Redis.Position(|xs|, index); p.Some? && parse(xs[p.value]) == Some(JObj(fields))
    ensures var xs := db.List(FailedLeads);
            var p := Redis.Position(|xs|, index).value;
            var (reply, db') := RetryOne(db, index, parse, dumps);
            reply == Retried(1) &&
            db'.List(LeadsToEnrich) == [dumps(OriginalLead(fields))] + db.List(LeadsToEnrich) &&
            |db'.List(FailedLeads)| == |xs| - 1 &&
            (RemovedMarker !in xs[..p] ==> db'.List(FailedLeads) == xs[..p] + xs[p + 1..])
  {
    ListsDiffer();
    var xs := db.List(FailedLeads);
    var p := Redis.Position(|xs|, index).value;
    var marked := xs[p := RemovedMarker];
    var db1 := db.LPush(LeadsToEnrich, dumps(OriginalLead(fields)));
    assert db1.List(FailedLeads) == xs;
    assert Redis.LRangeOne(xs, index) == [xs[p]];
    assert Redis.LSet(xs, index, RemovedMarker) == Some(marked);
    var db2 := db1.PutList(FailedLeads, marked).PutList(FailedLeads, Redis.LRemFirst(marked, RemovedMarker));
    assert RetryOne(db, index, parse, dumps) == (Retried(1), db2);
    assert db2.List(LeadsToEnrich) == db1.List(LeadsToEnrich);
    assert marked[p] == RemovedMarker;
    if RemovedMarker !in xs[..p] {
      assert marked[..p] == xs[..p] && marked[p + 1..] == xs[p + 1..];
      Redis.LRemFirstAt(marked, RemovedMarker, p);
    }
  }

  // ---------------------------------------------------------------------
  // POST /dlq/retry-all
  // ---------------------------------------------------------------------

  /** What `retry_all` pushes for one entry: the original lead when it parses to an object, else nothing. */
  function Payload(entry: string, parse: string -> Option<Json>, dumps: Json -> string): (r: seq<string>)
    ensures |r| <= 1
  {
    var j := parse(entry);
    if j.Some? && j.value.JObj? then [dumps(OriginalLead(j.value.fields))] else []
  }

  /** The payloads `retry_all` pushes, in list order: one per entry that parses to an object. */
  function Requeued(entries: seq<string>, parse: string -> Option<Json>, dumps: Json -> string): (r: seq<string>)
    ensures |r| <= |entries|
    decreases |entries|
  {
    if entries == [] then []
    else
      Requeued(entries[..|entries| - 1], parse, dumps) + Payload(entries[|entries| - 1], parse, dumps)
  }

  /** `LPUSH key v` for each payload in turn. */
  function Pushed(db: Redis.Db, k: string, vs: seq<string>): Redis.Db
    decreases |vs|
  {
    if vs == [] then db else Pushed(db, k, vs[..|vs| - 1]).LPush(k, vs[|vs| - 1])
  }

  function Reversed(vs: seq<string>): (r: seq<string>)
    ensures |r| == |vs|
    ensures forall i :: 0 <= i < |vs| ==> r[i] == vs[|vs| - 1 - i]
  {
    if vs == [] then [] else [vs[|vs| - 1]] + Reversed(vs[..|vs| - 1])
  }

  /**
   * Pushing payloads one by one puts them at the head in reverse, so the
   * first one pushed is the first one a tail pop reaches; no other list
   * changes.
   */
  lemma {:induction false} PushedLists(db: Redis.Db, k: string, vs: seq<string>, other: string)
    requires other != k
    ensures Pushed(db, k, vs).List(k) == Reversed(vs) + db.List(k)
    ensures Pushed(db, k, vs).List(other) == db.List(other)
    decreases |vs|
  {
    if vs != [] {
      PushedLists(db, k, vs[..|vs| - 1], other);
    }
  }

  /** Each malformed entry is skipped; all of them are re-queued exactly when every one parses to an object. */
  lemma {:induction false} RequeuedCount(entries: seq<string>, parse: string -> Option<Json>, dumps: Json -> string)
    ensures |Requeued(entries, parse, dumps)| <= |entries|
    ensures |Requeued(entries, parse, dumps)| == |entries| <==>
              forall i :: 0 <= i < |entries| ==> parse(entries[i]).Some? && parse(entries[i]).value.JObj?
    decreases |entries|
  {
    if entries != [] {
      var init := entries[..|entries| - 1];
      RequeuedCount(init, parse, dumps);
      assert forall i :: 0 <= i < |init| ==> init[i] == entries[i];
    }
  }

  /** `retry_all`: nothing to do on an empty list; otherwise re-queue the parseable entries and delete the list. */
  function RetryAll(db: Redis.Db, parse: string -> Option<Json>, dumps: Json -> string): (r: (Reply, Redis.Db))
    ensures r.0.Retried? && r.0.count <= |db.List(FailedLeads)|
  {
    var xs := db.List(FailedLeads);
    if xs == [] then (Retried(0), db)
    else
      var vs := Requeued(xs, parse, dumps);
      (Retried(|vs|), Pushed(db, LeadsToEnrich, vs).Del(FailedLeads))
  }

  /**
   * After `retry_all` the dead-letter list is gone and the work queue has
   * the re-queued payloads in front, the first entry nearest the tail; the
   * count is the number of payloads pushed.
   */
  lemma RetryAllOutcome(db: Redis.Db, parse: string -> Option<Json>, dumps: Json -> string)
    ensures var xs := db.List(FailedLeads);
            var (reply, db') := RetryAll(db, parse, dumps);
            var vs := Requeued(xs, parse, dumps);
            (xs == [] ==> reply == Retried(0) && db' == db) &&
            (xs != [] ==> reply == Retried(|vs|) && db'.List(FailedLeads) == [] &&
                          db'.List(LeadsToEnrich) == Reversed(vs) + db.List(LeadsToEnrich))
  {
    ListsDiffer();
    PushedLists(db, LeadsToEnrich, Requeued(db.List(FailedLeads), parse, dumps), FailedLeads);
  }

  /** The Redis-facing endpoints. */
  method RetryOneOnStore(r: Redis.Store, index: int, parse: string -> Option<Json>, dumps: Json -> string)
    returns (reply: Reply)
    modifies r
    ensures (reply, r.Snapshot()) == RetryOne(old(r.Snapshot()), index, parse, dumps)
  {
    var raw := r.LRangeAt(FailedLeads, index);
    if raw == [] {
      return HttpError(404);
    }
    var parsed := parse(raw[0]);
    if parsed.None? {
      return HttpError(400);
    }
    if !parsed.value.JObj? {
      return HttpError(500);
    }
    r.LPush(LeadsToEnrich, dumps(OriginalLead(parsed.value.fields)));
    var ok := r.LSetAt(FailedLeads, index, RemovedMarker);
    if !ok {
      return HttpError(500);
    }
    r.LRem(FailedLeads, RemovedMarker);
    reply := Retried(1);
  }

  lemma RequeuedStep(entries: seq<string>, i: nat, parse: string -> Option<Json>, dumps: Json -> string)
    requires i < |entries|
    ensures Requeued(entries[..i + 1], parse, dumps) == Requeued(entries[..i], parse, dumps) + Payload(entries[i], parse, dumps)
  {
    assert entries[..i + 1][..i] == entries[..i];
  }

  lemma PushedStep(db: Redis.Db, k: string, vs: seq<string>, v: string)
    ensures Pushed(db, k, vs + [v]) == Pushed(db, k, vs).LPush(k, v)
  {
    assert (vs + [v])[..|vs|] == vs;
  }

  /** What pushing the next entry's payload, if any, does to the work queue. */
  lemma RequeueNext(db0: Redis.Db, entries: seq<string>, i: nat, parse: string -> Option<Json>, dumps: Json -> string)
    requires i < |entries|
    ensures var done := Requeued(entries[..i], parse, dumps);
            var p := Payload(entries[i], parse, dumps);
            Requeued(entries[..i + 1], parse, dumps) == done + p &&
            |done + p| == |done| + |p| &&
            (p == [] ==> Pushed(db0, LeadsToEnrich, done + p) == Pushed(db0, LeadsToEnrich, done)) &&
            (p != [] ==> Pushed(db0, LeadsToEnrich, done + p) == Pushed(db0, LeadsToEnrich, done).LPush(LeadsToEnrich, p[0]))
  {
    RequeuedStep(entries, i, parse, dumps);
    var done := Requeued(entries[..i], parse, dumps);
    var p := Payload(entries[i], parse, dumps);
    if p != [] {
      assert p == [p[0]];
      PushedStep(db0, LeadsToEnrich, done, p[0]);
    } else {
      assert done + p == done;
    }
  }

  /** The loop of `retry_all`: push the original lead of each parseable entry, in order, and count them. */
  method RequeueEach(r: Redis.Store, entries: seq<string>, parse: string -> Option<Json>, dumps: Json -> string)
    returns (count: nat)
    modifies r
    ensures r.Snapshot() == Pushed(old(r.Snapshot()), LeadsToEnrich, Requeued(entries, parse, dumps))
    ensures count == |Requeued(entries, parse, dumps)|
  {
    count := 0;
    ghost var db0 := r.Snapshot();
    for i := 0 to |entries|
      invariant r.Snapshot() == Pushed(db0, LeadsToEnrich, Requeued(entries[..i], parse, dumps))
      invariant count == |Requeued(entries[..i], parse, dumps)|
    {
      RequeueNext(db0, entries, i, parse, dumps);
      var payload := Payload(entries[i], parse, dumps);
      if payload != [] {
        r.LPush(LeadsToEnrich, payload[0]);
        count := count + 1;
      }
    }
    assert entries[..|entries|] == entries;
  }

  method RetryAllOnStore(r: Redis.Store, parse: string -> Option<Json>, dumps: Json -> string)
    returns (reply: Reply)
    modifies r
    ensures (reply, r.Snapshot()) == RetryAll(old(r.Snapshot()), parse, dumps)
  {
    var entries := r.LRange(FailedLeads);
    if entries == [] {
      return Retried(0);
    }
    var count := RequeueEach(r, entries, parse, dumps);
    r.Del(FailedLeads);
    reply := Retried(count);
  }

  // ---------------------------------------------------------------------
  // POST /api/blueprints/save
  // ---------------------------------------------------------------------

  /** Remove every "https://", then "http://", then "www." (each in one left-to-right pass). */
  function StripSchemes(d: string): string {
    ReplaceAll(ReplaceAll(ReplaceAll(d, "https://", ""), "http://", ""), "www.", "")
  }

  /** The domain a blueprint is filed under: the stripped text up to its first '/'. */
  function NormalizeDomain(d: string): (r: string)
    ensures '/' !in r
    ensures |r| <= |StripSchemes(d)| && r == StripSchemes(d)[..|r|]
    ensures |r| < |StripSchemes(d)| ==> StripSchemes(d)[|r|] == '/'
  {
    SplitHead(StripSchemes(d), '/');
    Split(StripSchemes(d), '/')[0]
  }

  /** A host none of the three patterns occurs in passes the stripping unchanged. */
  lemma StripBare(h: string)
    requires !Contains(h, "https://") && !Contains(h, "http://") && !Contains(h, "www.")
    ensures StripSchemes(h) == h
  {
    ReplaceAbsent(h, "https://", "");
    ReplaceAbsent(h, "http://", "");
    ReplaceAbsent(h, "www.", "");
  }

  /** A leading pattern is removed by the first step of the pass. */
  lemma ReplaceLeading(pat: string, h: string)
    requires pat != []
    ensures ReplaceAll(pat + h, pat, "") == ReplaceAll(h, pat, "")
  {
    var s := pat + h;
    assert StartsWith(s, pat) && s[|pat|..] == h;
  }

  /** "http://" followed by a host without "https://" does not contain "https://". */
  lemma HttpHasNoHttps(h: string)
    requires !Contains(h, "https://")
    ensures !Contains("http://" + h, "https://")
  {
    var t := "http://" + h;
    if Contains(t, "https://") {
      var i := ContainsWitness(t, "https://");
      if i >= 7 {
        assert t[i..i + 8] == h[i - 7..i + 1];
        ContainsAt(h, "https://", i - 7);
      } else {
        NoHttpsBelow(h, i);
      }
    }
  }

  /** No "https://" starts inside the leading "http://". */
  lemma NoHttpsBelow(h: string, i: nat)
    requires i < 7 && i + 8 <= |"http://" + h|
    ensures ("http://" + h)[i..i + 8] != "https://"
  {
    var t := "http://" + h;
    if i <= 2 {
      assert t[i + 4] != "https://"[4];
    } else {
      assert t[i] != "https://"[0];
    }
  }

  /** A bare host is kept as it is, with or without a scheme in front. */
  lemma NormalizeHost(h: string)
    requires '/' !in h
    requires !Contains(h, "https://") && !Contains(h, "http://") && !Contains(h, "www.")
    ensures NormalizeDomain(h) == h
    ensures NormalizeDomain("https://" + h) == h
    ensures NormalizeDomain("http://" + h) == h
  {
    StripBare(h);
    SplitHead(h, '/');
    ReplaceLeading("https://", h);
    ReplaceAbsent(h, "https://", "");
    HttpHasNoHttps(h);
    ReplaceAbsent("http://" + h, "https://", "");
    ReplaceLeading("http://", h);
  }

  /** What `save_blueprint` answers: the domain and blueprint it wrote, or an error status. */
  datatype Saved = Saved(domain: string, blueprint: Json) | Refused(status: nat)

  /**
   * `save_blueprint` as written: the 400 for a missing domain is raised
   * inside the `try` whose generic handler turns every exception into a
   * 500, so the caller never sees the 400.
   */
  function SaveBlueprintAsWritten(request: map<string, Json>, written: bool): (r: Saved)
    ensures r.Refused? ==> r.status == 500
  {
    var domain := Get(request, "domain");
    var blueprint := if "blueprint" in request then request["blueprint"] else JObj(request);
    if !domain.Truthy() then Refused(500)
    else if !domain.JStr? || !written then Refused(500)
    else Saved(NormalizeDomain(domain.s), blueprint)
  }

  /** `save_blueprint` with the missing-domain 400 passed through. */
  function SaveBlueprint(request: map<string, Json>, written: bool): (r: Saved)
    ensures r.Saved? ==> written && '/' !in r.domain
    ensures r.Refused? ==> r.status in {400, 500}
  {
    var domain := Get(request, "domain");
    var blueprint := if "blueprint" in request then request["blueprint"] else JObj(request);
    if !domain.Truthy() then Refused(400)
    else if !domain.JStr? || !written then Refused(500)
    else Saved(NormalizeDomain(domain.s), blueprint)
  }

  /**
   * A missing or empty domain is refused with 400 and only then; a saved
   * blueprint is filed under a domain without '/', and is the request's
   * `blueprint` field or the whole request.
   */
  lemma SaveBlueprintOutcome(request: map<string, Json>, written: bool)
    ensures var r := SaveBlueprint(request, written);
            (r == Refused(400) <==> !Get(request, "domain").Truthy()) &&
            (r.Saved? ==> '/' !in r.domain &&
                          r.blueprint == (if "blueprint" in request then request["blueprint"] else JObj(request)))
  {
  }

  /** A request without a domain: the code as written answers 500 where 400 is meant. */
  lemma MissingDomainFinding(written: bool)
    ensures SaveBlueprintAsWritten(map[], written) == Refused(500)
    ensures SaveBlueprint(map[], written) == Refused(400)
  {
  }

  // ---------------------------------------------------------------------
  // GET /spiders
  // ---------------------------------------------------------------------

  /** A spider file: its name and its modification time as an ISO string, when its metadata could be read. */
  datatype SpiderFile = SpiderFile(name: string, lastModified: Option<string>)

  /** Files named `__init__.py` or starting with '_' are not spiders. */
  predicate IsSpider(f: SpiderFile) {
    f.name != "__init__.py" && !StartsWith(f.name, "_")
  }

  function Spiders(files: seq<SpiderFile>): (r: seq<SpiderFile>)
    ensures forall i :: 0 <= i < |r| ==> IsSpider(r[i])
    ensures forall f :: f in files && IsSpider(f) ==> f in r
    ensures forall f :: f in r ==> f in files
  {
    if files == [] then []
    else (if IsSpider(files[0]) then [files[0]] else []) + Spiders(files[1..])
  }

  /** The sort key: the modification time, or "" when it is missing. */
  function SortKey(f: SpiderFile): string {
    if f.lastModified.Some? then f.lastModified.value else ""
  }

  /** Python's string order: lexicographic by character. */
  predicate StrLe(a: string, b: string) {
    a == [] || (b != [] && (a[0] < b[0] || (a[0] == b[0] && StrLe(a[1..], b[1..]))))
  }

  lemma {:induction false} StrLeTotal(a: string, b: string)
    ensures StrLe(a, b) || StrLe(b, a)
  {
    if a != [] && b != [] && a[0] == b[0] {
      StrLeTotal(a[1..], b[1..]);
    }
  }

  /** Newest first: every file's key is at least the next one's. */
  predicate NewestFirst(fs: seq<SpiderFile>) {
    forall i :: 0 <= i < |fs| - 1 ==> StrLe(SortKey(fs[i + 1]), SortKey(fs[i]))
  }

  /** Place `f` before the first file that is not newer, so equal keys keep their order. */
  function Insert(f: SpiderFile, fs: seq<SpiderFile>): seq<SpiderFile>
    decreases |fs|
  {
    if fs == [] || StrLe(SortKey(fs[0]), SortKey(f)) then [f] + fs
    else [fs[0]] + Insert(f, fs[1..])
  }

  lemma {:induction false} InsertSorted(f: SpiderFile, fs: seq<SpiderFile>)
    requires NewestFirst(fs)
    ensures NewestFirst(Insert(f, fs))
    ensures multiset(Insert(f, fs)) == multiset(fs) + multiset{f}
    ensures Insert(f, fs) != [] && (Insert(f, fs)[0] == f || (fs != [] && Insert(f, fs)[0] == fs[0]))
    decreases |fs|
  {
    if fs != [] && !StrLe(SortKey(fs[0]), SortKey(f)) {
      StrLeTotal(SortKey(fs[0]), SortKey(f));
      InsertSorted(f, fs[1..]);
      assert fs == [fs[0]] + fs[1..];
    }
  }

  /** `spiders.sort(key=..., reverse=True)` on the listed files. */
  function SortNewestFirst(fs: seq<SpiderFile>): seq<SpiderFile>
    decreases |fs|
  {
    if fs == [] then [] else Insert(fs[0], SortNewestFirst(fs[1..]))
  }

  lemma {:induction false} SortNewestFirstSorts(fs: seq<SpiderFile>)
    ensures NewestFirst(SortNewestFirst(fs))
    ensures multiset(SortNewestFirst(fs)) == multiset(fs)
    decreases |fs|
  {
    if fs != [] {
      SortNewestFirstSorts(fs[1..]);
      InsertSorted(fs[0], SortNewestFirst(fs[1..]));
      assert fs == [fs[0]] + fs[1..];
    }
  }

  /** `list_spiders`: the spider files, newest first. */
  function ListSpiders(files: seq<SpiderFile>): seq<SpiderFile> {
    SortNewestFirst(Spiders(files))
  }

  /**
   * The listing holds exactly the spider files, each as often as it was
   * found, newest first.
   */
  lemma ListSpidersOutcome(files: seq<SpiderFile>)
    ensures var r := ListSpiders(files);
            NewestFirst(r) && multiset(r) == multiset(Spiders(files)) &&
            (forall f :: f in r <==> f in files && IsSpider(f))
  {
    SortNewestFirstSorts(Spiders(files));
    var r := ListSpiders(files);
    forall f
      ensures f in r <==> f in files && IsSpider(f)
    {
      assert f in r <==> f in multiset(r);
      assert f in Spiders(files) <==> f in multiset(Spiders(files));
    }
  }
}
