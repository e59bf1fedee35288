/**
 * The enrichment stations (scrapegoat/app/pipeline/stations/enrichment.py).
 *
 * The Chimera deep-search station hands a mission to an external worker
 * through the store, waits for its reply, and moves on to the next
 * provider after any failure. The provider router, the worker's replies,
 * `json.loads`, the pause flag as seen at each poll and SHA-256 are
 * parameters; the missions pushed and the router statistics recorded are
 * returned as a trace of events, and the poison counters are written to
 * the store through the validator model.
 *
 * The identity, skip-tracing, phone-check, do-not-call and save stations
 * are decisions over the result of the call they wrap.
 */
module Stations {
  import opened Wrappers
  import opened Text
  import opened Json
  import Redis
  import PipelineTypes
  import PoisonValidator
  import IdentityResolution
  import SkipTracing
  import Database

  /** What a station's `process` returns. */
  type Output = (map<string, Json>, PipelineTypes.StopCondition)

  // ---------------------------------------------------------------------
  // The Chimera Brain address
  // ---------------------------------------------------------------------

  /**
   * `_get_chimera_brain_http_url` from the two settings (an unset one is
   * ""): the HTTP URL itself; else a gRPC address on port 50051 moved to
   * port 8080; else the local default. Trailing slashes are dropped.
   */
  function BrainHttpUrl(httpUrl: string, address: string): (r: string)
    ensures r == [] || r[|r| - 1] != '/'
    ensures httpUrl != "" ==> |r| <= |httpUrl| && r == httpUrl[..|r|] && forall i :: |r| <= i < |httpUrl| ==> httpUrl[i] == '/'
    ensures httpUrl == "" && !Contains(address, "50051") ==> r == "http://localhost:8080"
    ensures httpUrl == "" && Contains(address, "50051") ==> r == RStripChar(ReplaceAll(address, "50051", "8080"), '/')
  {
    if httpUrl != "" then
      RStripCharOnly(httpUrl, '/');
      RStripChar(httpUrl, '/')
    else if address != "" && Contains(address, "50051") then RStripChar(ReplaceAll(address, "50051", "8080"), '/')
    else "http://localhost:8080"
  }

  /**
   * A gRPC address naming port 50051 once becomes the same address on the
   * HTTP port 8080: `host` (free of the digit 5) and `path` are kept.
   */
  lemma BrainAddressMovesPort(host: string, path: string)
    requires '5' !in host && !Contains(path, "50051")
    ensures BrainHttpUrl("", host + "50051" + path) == RStripChar(host + "8080" + path, '/')
  {
    var a := host + "50051" + path;
    assert a[|host|..|host| + 5] == "50051";
    ContainsAt(a, "50051", |host|);
    ReplaceFirstOccurrence(host, "50051", path, "8080");
    ReplaceAbsent(path, "50051", "8080");
  }

  /** The HTTP URL setting wins over the address, without its trailing slashes. */
  lemma BrainHttpUrlWins()
    ensures BrainHttpUrl("http://hive:9000//", "http://brain:50051") == "http://hive:9000"
  {
    assert "http://hive:9000//"[..17] == "http://hive:9000/";
    assert "http://hive:9000/"[..16] == "http://hive:9000";
  }

  /** An address without the digit 5, so on another port, falls back to the local default. */
  lemma BrainOtherPortIsLocal(address: string)
    requires '5' !in address
    ensures BrainHttpUrl("", address) == "http://localhost:8080"
  {
    AbsentHeadNotContained(address, "50051");
  }

  // ---------------------------------------------------------------------
  // Chimera deep search
  // ---------------------------------------------------------------------

  const PausePoll: nat := 15
  const PauseWaitMax: nat := 120

  /**
   * The seconds counted while `SYSTEM_STATE:PAUSED` stays set, starting
   * from `w`; `paused(w)` says whether the flag is set at the poll made
   * after `w` counted seconds.
   */
  function Waited(paused: nat -> bool, w: nat): nat
    decreases PauseWaitMax - w
  {
    if w < PauseWaitMax && paused(w) then Waited(paused, w + PausePoll) else w
  }

  /**
   * The wait is bounded by the maximum, counts whole polls, stops early
   * only at a poll that found the flag cleared, and every poll before it
   * found the flag set.
   */
  lemma {:induction false} WaitBounded(paused: nat -> bool, w: nat)
    requires w <= PauseWaitMax && w % PausePoll == 0
    ensures var r := Waited(paused, w);
            w <= r <= PauseWaitMax && r % PausePoll == 0 &&
            (r < PauseWaitMax ==> !paused(r)) &&
            forall v :: w <= v < r && v % PausePoll == 0 ==> paused(v)
    decreases PauseWaitMax - w
  {
    if w < PauseWaitMax && paused(w) {
      WaitBounded(paused, w + PausePoll);
    }
  }

  /** The pause loop: poll, wait one interval, count it, while the flag is set and time is left. */
  method PauseWait(paused: nat -> bool) returns (waited: nat)
    ensures waited == Waited(paused, 0)
  {
    waited := 0;
    while waited < PauseWaitMax && paused(waited)
      invariant Waited(paused, waited) == Waited(paused, 0)
      decreases PauseWaitMax - waited
    {
      waited := waited + PausePoll;
    }
  }

  /** A provider's domain: lower-cased, spaces removed, `.com` added when it has no dot. */
  function ChimeraDomain(provider: string): (d: string)
    ensures var base := ReplaceAll(Lower(provider), " ", "");
            d == base || d == base + ".com"
    ensures Contains(d, ".")
  {
    var base := ReplaceAll(Lower(provider), " ", "");
    if Contains(base, ".") then base
    else
      ContainsAt(base + ".com", ".", |base|);
      base + ".com"
  }

  /** `.com` is added exactly when the name has no dot, and the domain has no space or capital. */
  lemma ChimeraDomainShape(provider: string)
    ensures var base := ReplaceAll(Lower(provider), " ", "");
            (ChimeraDomain(provider) == base + ".com" <==> !Contains(base, ".")) &&
            forall i :: 0 <= i < |ChimeraDomain(provider)| ==> ChimeraDomain(provider)[i] != ' ' && !IsUpper(ChimeraDomain(provider)[i])
  {
    var base := ReplaceAll(Lower(provider), " ", "");
    var d := ChimeraDomain(provider);
    ReplaceSingleGone(Lower(provider), ' ');
    ReplaceKeepsNoUpper(Lower(provider));
    if !Contains(base, ".") {
      assert d == base + ".com";
      forall i | 0 <= i < |d| ensures d[i] != ' ' && !IsUpper(d[i]) {
        if i >= |base| {
          assert d[i] == ".com"[i - |base|];
        }
      }
    } else {
      assert d == base && |d| != |base + ".com"|;
    }
  }

  /** Removing spaces from a string without capitals leaves none. */
  lemma {:induction false} ReplaceKeepsNoUpper(s: string)
    requires forall i :: 0 <= i < |s| ==> !IsUpper(s[i])
    ensures forall i :: 0 <= i < |ReplaceAll(s, " ", "")| ==> !IsUpper(ReplaceAll(s, " ", "")[i])
    decreases |s|
  {
    if s != [] {
      ReplaceKeepsNoUpper(s[1..]);
      ReplaceCharAppend([s[0]], s[1..], ' ', "");
      assert [s[0]] + s[1..] == s;
      if s[0] != ' ' {
        ReplaceCharAbsent([s[0]], ' ', "");
      } else {
        assert ReplaceAll([s[0]], " ", "") == "";
      }
    }
  }

  /** How the worker's reply to a mission went. */
  datatype Reply =
    | PushFailed          // pushing the mission raised
    | WaitFailed          // waiting for the reply raised
    | TimedOut            // no reply within the timeout
    | Delivered(payload: string)

  /** Missions pushed and router statistics recorded, in order. */
  datatype Event =
    | Pushed(provider: string)
    | ProviderRecorded(provider: string, success: bool)
    | CarrierRecorded(domain: string, success: bool)

  /**
   * What the station consults: the pause flag per poll, the router's first
   * pick and its next pick after a failure, the worker's reply to the n-th
   * mission, `json.loads`, SHA-256, and the providers the router knows.
   */
  datatype Env = Env(paused: nat -> bool, select: string, next: (string, set<string>) -> Option<string>,
                     reply: (string, nat) -> Reply, parse: string -> Option<Json>, sha: string -> string,
                     magazine: set<string>)

  /** The router never proposes a provider already tried, and knows finitely many. */
  ghost predicate RouterFresh(env: Env) {
    forall failed: string, tried: set<string> ::
      env.next(failed, tried).Some? ==> env.next(failed, tried).value in env.magazine && env.next(failed, tried).value !in tried
  }

  /** Whether a reply carries a usable result. */
  datatype Verdict = Failure | Success(data: map<string, Json>)

  /**
   * A reply succeeds exactly when it arrived, parses to a dictionary and
   * that dictionary's status is not "failed".
   */
  function Judge(reply: Reply, parse: string -> Option<Json>): (v: Verdict)
    ensures v.Success? <==> reply.Delivered? && parse(reply.payload).Some? && parse(reply.payload).value.JObj? &&
                            Get(parse(reply.payload).value.fields, "status") != JStr("failed")
    ensures v.Success? ==> parse(reply.payload) == Some(JObj(v.data))
  {
    match reply
    case Delivered(payload) =>
      (match parse(payload)
       case Some(JObj(data)) => if Get(data, "status") == JStr("failed") then Failure else Success(data)
       case _ => Failure)
    case _ => Failure
  }

  const ChimeraKeys: seq<string> := ["income", "age", "phone", "email"]

  /** `chimera_k` for each of `keys` present in the result with a value other than None. */
  function Picked(data: map<string, Json>, keys: seq<string>): map<string, Json> {
    if keys == [] then map[]
    else
      var k := keys[|keys| - 1];
      var m := Picked(data, keys[..|keys| - 1]);
      if k in data && data[k] != JNull then m["chimera_" + k := data[k]] else m
  }

  lemma {:induction false} PickedFields(data: map<string, Json>, keys: seq<string>)
    ensures forall j :: j in Picked(data, keys) ==> exists k :: k in keys && j == "chimera_" + k
    ensures forall k :: k in keys ==> ("chimera_" + k in Picked(data, keys) <==> k in data && data[k] != JNull)
    ensures forall k :: k in keys && k in data && data[k] != JNull ==> Picked(data, keys)["chimera_" + k] == data[k]
    decreases |keys|
  {
    if keys != [] {
      var init := keys[..|keys| - 1];
      PickedFields(data, init);
      forall k | k in keys ensures k == keys[|keys| - 1] || k in init {
        var i :| 0 <= i < |keys| && keys[i] == k;
        if i < |keys| - 1 {
          assert init[i] == k;
        }
      }
      forall k | k in init ensures k in keys {
        var i :| 0 <= i < |init| && init[i] == k;
        assert keys[i] == k;
      }
      forall k | k in keys && ("chimera_" + k)[..8] == "chimera_" ensures ("chimera_" + k)[8..] == k {
      }
    }
  }

  /** The success output: the picked fields and the raw result. */
  function ChimeraFields(data: map<string, Json>): (out: map<string, Json>)
    ensures "chimera_raw" in out && out["chimera_raw"] == JObj(data)
    ensures forall k :: k in ChimeraKeys ==> ("chimera_" + k in out <==> k in data && data[k] != JNull)
    ensures forall k :: k in ChimeraKeys && k in data && data[k] != JNull ==> out["chimera_" + k] == data[k]
  {
    PickedFields(data, ChimeraKeys);
    assert "chimera_raw" !in Picked(data, ChimeraKeys) by {
      forall k | k in ChimeraKeys ensures "chimera_raw" != "chimera_" + k {
        assert |"chimera_" + k| <= 14;
        assert "chimera_raw"[8..] == "raw";
      }
    }
    Picked(data, ChimeraKeys)["chimera_raw" := JObj(data)]
  }

  /** `record_data_point` for one field of the result, when the field is truthy. */
  function RecordField(db: Redis.Db, provider: string, field: string, data: map<string, Json>,
                       leadId: string, sha: string -> string): Attempt<Redis.Db>
  {
    var v := Get(data, field);
    if !v.Truthy() then Ok(db)
    else
      match PoisonValidator.Record(db, provider, field, v, leadId, sha)
      case Raises => Raises
      case Ok(rec) => Ok(rec.db)
  }

  /** A run of the station: its result (or a raise), the store after it, and its events. */
  datatype ChimeraRun = ChimeraRun(result: Attempt<Output>, db: Redis.Db, events: seq<Event>)

  /**
   * The cross-source check for a high-value lead: a second provider's
   * mission; a reply that parses to a non-failed dictionary records the
   * second provider's success, and reports whether the two results differ.
   * Every failure here is swallowed.
   */
  function CrossCheck(provider: string, data: map<string, Json>, tried: set<string>, n: nat,
                      env: Env, events: seq<Event>): (bool, seq<Event>)
  {
    var second := env.next(provider, tried);
    if second.None? || second.value == "" then (false, events)
    else
      var reply := env.reply(second.value, n);
      var pushed := if reply.PushFailed? then events else events + [Pushed(second.value)];
      match Judge(reply, env.parse)
      case Failure => (false, pushed)
      case Success(data2) =>
        (PoisonValidator.CheckCrossSource(data, data2).Ok? && PoisonValidator.CheckCrossSource(data, data2).value.Some?,
         pushed + [ProviderRecorded(second.value, true)])
  }

  /**
   * A successful reply from `provider`: record the success, count the
   * phone and email against poisoning, build the output, flag a low
   * vision confidence, and for a high-value lead compare with a second
   * provider. A raise from the poison counter, the confidence check or the
   * high-value check ends the station with that raise.
   */
  function Finish(lead: map<string, Json>, leadId: string, provider: string, data: map<string, Json>,
                  tried: set<string>, n: nat, env: Env, db: Redis.Db, events: seq<Event>): (r: ChimeraRun)
    ensures r.result.Ok? ==> r.result.value.1 == PipelineTypes.Continue
  {
    var events1 := events + [ProviderRecorded(provider, true), CarrierRecorded(ChimeraDomain(provider), true)];
    match RecordField(db, provider, "phone", data, leadId, env.sha)
    case Raises => ChimeraRun(Raises, db, events1)
    case Ok(db1) =>
      match RecordField(db1, provider, "email", data, leadId, env.sha)
      case Raises => ChimeraRun(Raises, db1, events1)
      case Ok(db2) => Flagged(lead, provider, data, tried, n, env, db2, events1)
  }

  /** The output of a success once the poison counters are written. */
  function Flagged(lead: map<string, Json>, provider: string, data: map<string, Json>,
                   tried: set<string>, n: nat, env: Env, db: Redis.Db, events: seq<Event>): (r: ChimeraRun)
    ensures r.result.Ok? ==> r.result.value.1 == PipelineTypes.Continue
  {
    match PoisonValidator.ApplyConsensus(data)
    case Raises => ChimeraRun(Raises, db, events)
    case Ok(flags) =>
      var out := ChimeraFields(data) + flags;
      match PoisonValidator.IsHighValue(lead)
      case Raises => ChimeraRun(Raises, db, events)
      case Ok(high) =>
        if !high then ChimeraRun(Ok((out, PipelineTypes.Continue)), db, events)
        else
          var (differ, events2) := CrossCheck(provider, data, tried, n, env, events);
          ChimeraRun(Ok((if differ then out[PoisonValidator.NeedsReconciliation := JBool(true)] else out,
                         PipelineTypes.Continue)), db, events2)
  }

  /** Adding a fresh provider to `tried` shrinks the measure of the provider loop. */
  lemma FreshShrinks(magazine: set<string>, tried: set<string>, p: string)
    requires tried == {} || (p in magazine && p !in tried)
    ensures |magazine - (tried + {p})| < |magazine - tried| + (if tried == {} then 1 else 0)
  {
    if tried == {} {
      if p in magazine {
        assert magazine - {p} + {p} == magazine;
      } else {
        assert magazine - {p} == magazine;
      }
    } else {
      assert magazine - tried == (magazine - (tried + {p})) + {p};
    }
  }

  /**
   * The provider loop from its state: the providers tried, the one that
   * failed last, the number of missions attempted, the store and the
   * events so far.
   */
  function Loop(lead: map<string, Json>, leadId: string, tried: set<string>, failed: Option<string>, n: nat,
                env: Env, db: Redis.Db, events: seq<Event>): (r: ChimeraRun)
    requires RouterFresh(env)
    ensures r.result.Ok? ==> r.result.value.1 == PipelineTypes.Continue
    decreases |env.magazine - tried| + (if tried == {} then 1 else 0)
  {
    var pick := if tried == {} then Some(env.select) else if failed.None? then None else env.next(failed.value, tried);
    if pick.None? then ChimeraRun(Ok((map[], PipelineTypes.Continue)), db, events)
    else
      var p := pick.value;
      var reply := env.reply(p, n);
      var pushed := if reply.PushFailed? then events else events + [Pushed(p)];
      match Judge(reply, env.parse)
      case Success(data) => Finish(lead, leadId, p, data, tried + {p}, n + 1, env, db, pushed)
      case Failure =>
        FreshShrinks(env.magazine, tried, p);
        Loop(lead, leadId, tried + {p}, Some(p), n + 1, env, db,
             pushed + [ProviderRecorded(p, false), CarrierRecorded(ChimeraDomain(p), false)])
  }

  /** `linkedinUrl`, else `linkedin_url`, else "". */
  function UrlOf(lead: map<string, Json>): Json {
    Or(Or(Get(lead, "linkedinUrl"), Get(lead, "linkedin_url")), JStr(""))
  }

  /** `ChimeraStation.process` from the store's state before it. */
  function Chimera(lead: map<string, Json>, env: Env, db: Redis.Db): (r: ChimeraRun)
    requires RouterFresh(env)
    ensures r.result.Ok? && r.result.value.1 == PipelineTypes.Fail <==> !UrlOf(lead).Truthy()
    ensures !UrlOf(lead).Truthy() ==> r.events == [] && r.db == db
  {
    var url := UrlOf(lead);
    if !url.Truthy() then ChimeraRun(Ok((map[], PipelineTypes.Fail)), db, [])
    else if env.paused(Waited(env.paused, 0)) then ChimeraRun(Ok((map[], PipelineTypes.Continue)), db, [])
    else Loop(lead, PyStr(url), {}, None, 0, env, db, [])
  }

  /** The providers of the pushed missions, in order. */
  function Pushes(events: seq<Event>): seq<string> {
    if events == [] then []
    else Pushes(events[..|events| - 1]) + (if events[|events| - 1].Pushed? then [events[|events| - 1].provider] else [])
  }

  lemma PushesAppend(events: seq<Event>, e: Event)
    ensures Pushes(events + [e]) == Pushes(events) + (if e.Pushed? then [e.provider] else [])
  {
    assert (events + [e])[..|events|] == events;
  }

  predicate Distinct(s: seq<string>) {
    forall i, j :: 0 <= i < j < |s| ==> s[i] != s[j]
  }

  /** Pushing one more provider that was not pushed before keeps the pushes distinct. */
  lemma PushFresh(events: seq<Event>, p: string, tried: set<string>)
    requires Distinct(Pushes(events)) && (forall q :: q in Pushes(events) ==> q in tried) && p !in tried
    ensures Distinct(Pushes(events + [Pushed(p)]))
    ensures forall q :: q in Pushes(events + [Pushed(p)]) ==> q in tried + {p}
  {
    PushesAppend(events, Pushed(p));
  }

  /** One mission of the provider loop, pushed unless pushing raised, for a provider not tried yet. */
  lemma PushStep(events: seq<Event>, p: string, tried: set<string>, reply: Reply)
    requires Distinct(Pushes(events)) && (forall q :: q in Pushes(events) ==> q in tried)
    requires tried == {} || p !in tried
    ensures var pushed := if reply.PushFailed? then events else events + [Pushed(p)];
            Distinct(Pushes(pushed)) && forall q :: q in Pushes(pushed) ==> q in tried + {p}
  {
    if !reply.PushFailed? {
      PushFresh(events, p, tried);
    }
  }

  /** Recording statistics pushes nothing. */
  lemma RecordsPushNothing(events: seq<Event>, p: string, d: string, b: bool)
    ensures Pushes(events + [ProviderRecorded(p, b), CarrierRecorded(d, b)]) == Pushes(events)
  {
    PushesAppend(events, ProviderRecorded(p, b));
    PushesAppend(events + [ProviderRecorded(p, b)], CarrierRecorded(d, b));
    assert events + [ProviderRecorded(p, b), CarrierRecorded(d, b)] == events + [ProviderRecorded(p, b)] + [CarrierRecorded(d, b)];
  }

  /** The cross-check pushes at most one mission, for a provider not tried yet. */
  lemma CrossCheckPushes(provider: string, data: map<string, Json>, tried: set<string>, n: nat,
                         env: Env, events: seq<Event>)
    requires RouterFresh(env)
    requires Distinct(Pushes(events)) && forall q :: q in Pushes(events) ==> q in tried
    ensures Distinct(Pushes(CrossCheck(provider, data, tried, n, env, events).1))
  {
    var second := env.next(provider, tried);
    if second.Some? && second.value != "" {
      PushFresh(events, second.value, tried);
      var reply := env.reply(second.value, n);
      var pushed := if reply.PushFailed? then events else events + [Pushed(second.value)];
      PushesAppend(pushed, ProviderRecorded(second.value, true));
    }
  }

  /** The flags the consensus check adds never clash with the result fields. */
  lemma ConsensusKeys(data: map<string, Json>)
    requires PoisonValidator.ApplyConsensus(data).Ok?
    ensures PoisonValidator.ApplyConsensus(data).value.Keys <= {PoisonValidator.NeedsOlmocr}
  {
  }

  /**
   * The output of a success keeps the raw result, and the cross-check
   * pushes only an untried provider.
   */
  lemma FlaggedOutcome(lead: map<string, Json>, provider: string, data: map<string, Json>,
                       tried: set<string>, n: nat, env: Env, db: Redis.Db, events: seq<Event>)
    requires RouterFresh(env) && provider in tried
    requires Distinct(Pushes(events)) && forall q :: q in Pushes(events) ==> q in tried
    ensures var run := Flagged(lead, provider, data, tried, n, env, db, events);
            (run.result.Ok? ==> run.result.value.1 == PipelineTypes.Continue &&
                                "chimera_raw" in run.result.value.0 && run.result.value.0["chimera_raw"] == JObj(data)) &&
            Distinct(Pushes(run.events))
  {
    var flags := PoisonValidator.ApplyConsensus(data);
    if flags.Ok? {
      ConsensusKeys(data);
      var out := ChimeraFields(data) + flags.value;
      assert "chimera_raw" in out && out["chimera_raw"] == JObj(data);
      var high := PoisonValidator.IsHighValue(lead);
      if high.Ok? && high.value {
        CrossCheckPushes(provider, data, tried, n, env, events);
      }
    }
  }

  /**
   * A success: the station continues, with the raw result (never a failed
   * one) in the output, and no mission is pushed twice.
   */
  lemma FinishOutcome(lead: map<string, Json>, leadId: string, provider: string, data: map<string, Json>,
                      tried: set<string>, n: nat, env: Env, db: Redis.Db, events: seq<Event>)
    requires RouterFresh(env) && provider in tried
    requires Distinct(Pushes(events)) && forall q :: q in Pushes(events) ==> q in tried
    ensures var run := Finish(lead, leadId, provider, data, tried, n, env, db, events);
            (run.result.Ok? ==> run.result.value.1 == PipelineTypes.Continue &&
                                "chimera_raw" in run.result.value.0 && run.result.value.0["chimera_raw"] == JObj(data)) &&
            Distinct(Pushes(run.events))
  {
    var events1 := events + [ProviderRecorded(provider, true), CarrierRecorded(ChimeraDomain(provider), true)];
    RecordsPushNothing(events, provider, ChimeraDomain(provider), true);
    var first := RecordField(db, provider, "phone", data, leadId, env.sha);
    if first.Ok? {
      var second := RecordField(first.value, provider, "email", data, leadId, env.sha);
      if second.Ok? {
        FlaggedOutcome(lead, provider, data, tried, n, env, second.value, events1);
      }
    }
  }

  /**
   * The provider loop ends by continuing: with no output when every
   * provider failed, or with a result that arrived, parsed to a dictionary
   * and was not marked failed. No provider's mission is pushed twice.
   */
  lemma {:induction false} LoopOutcome(lead: map<string, Json>, leadId: string, tried: set<string>, failed: Option<string>,
                                       n: nat, env: Env, db: Redis.Db, events: seq<Event>)
    requires RouterFresh(env)
    requires Distinct(Pushes(events)) && forall q :: q in Pushes(events) ==> q in tried
    ensures var run := Loop(lead, leadId, tried, failed, n, env, db, events);
            (run.result.Ok? ==>
               run.result.value.1 == PipelineTypes.Continue &&
               (run.result.value.0 == map[] ||
                ("chimera_raw" in run.result.value.0 && run.result.value.0["chimera_raw"].JObj? &&
                 Get(run.result.value.0["chimera_raw"].fields, "status") != JStr("failed")))) &&
            Distinct(Pushes(run.events))
    decreases |env.magazine - tried| + (if tried == {} then 1 else 0)
  {
    var pick := if tried == {} then Some(env.select) else if failed.None? then None else env.next(failed.value, tried);
    if pick.Some? {
      var p := pick.value;
      var reply := env.reply(p, n);
      var pushed := if reply.PushFailed? then events else events + [Pushed(p)];
      PushStep(events, p, tried, reply);
      match Judge(reply, env.parse)
      case Success(data) =>
        FinishOutcome(lead, leadId, p, data, tried + {p}, n + 1, env, db, pushed);
      case Failure =>
        FreshShrinks(env.magazine, tried, p);
        RecordsPushNothing(pushed, p, ChimeraDomain(p), false);
        LoopOutcome(lead, leadId, tried + {p}, Some(p), n + 1, env, db,
                    pushed + [ProviderRecorded(p, false), CarrierRecorded(ChimeraDomain(p), false)]);
    }
  }

  /**
   * The station fails only without a LinkedIn URL; it never asks to skip
   * the rest; a pause that outlasts the wait, like a missing URL, pushes
   * no mission and leaves the store as it was.
   */
  lemma ChimeraOutcome(lead: map<string, Json>, env: Env, db: Redis.Db)
    requires RouterFresh(env)
    ensures var run := Chimera(lead, env, db);
            (run.result.Ok? && run.result.value.1 == PipelineTypes.Fail <==> !UrlOf(lead).Truthy()) &&
            (run.result.Ok? ==> run.result.value.1 != PipelineTypes.SkipRemaining) &&
            (!UrlOf(lead).Truthy() || env.paused(Waited(env.paused, 0)) ==>
               run.result.Ok? && run.result.value.0 == map[] && run.events == [] && run.db == db) &&
            Distinct(Pushes(run.events))
  {
    if UrlOf(lead).Truthy() && !env.paused(Waited(env.paused, 0)) {
      LoopOutcome(lead, PyStr(UrlOf(lead)), {}, None, 0, env, db, []);
    }
  }

  /** The success path on the connection. */
  method FinishOnStore(r: Redis.Store, lead: map<string, Json>, leadId: string, provider: string,
                       data: map<string, Json>, tried: set<string>, n: nat, env: Env, events0: seq<Event>)
    returns (result: Attempt<Output>, events: seq<Event>)
    modifies r
    ensures var run := Finish(lead, leadId, provider, data, tried, n, env, old(r.Snapshot()), events0);
            result == run.result && events == run.events && r.Snapshot() == run.db
  {
    events := events0 + [ProviderRecorded(provider, true), CarrierRecorded(ChimeraDomain(provider), true)];
    var fields := ["phone", "email"];
    ghost var db0 := r.Snapshot();
    for i := 0 to |fields|
      invariant i == 0 ==> r.Snapshot() == db0
      invariant i == 1 ==> RecordField(db0, provider, "phone", data, leadId, env.sha) == Ok(r.Snapshot())
      invariant i == 2 ==> RecordField(db0, provider, "phone", data, leadId, env.sha).Ok? &&
                           RecordField(RecordField(db0, provider, "phone", data, leadId, env.sha).value,
                                       provider, "email", data, leadId, env.sha) == Ok(r.Snapshot())
    {
      var v := Get(data, fields[i]);
      if v.Truthy() {
        var recorded := PoisonValidator.RecordDataPoint(r, provider, fields[i], v, leadId, env.sha);
        if recorded.Raises? {
          return Raises, events;
        }
      }
    }
    result, events := FlaggedOutput(r, lead, provider, data, tried, n, env, events);
  }

  /** The output of a success, from the store the poison counters left. */
  method FlaggedOutput(r: Redis.Store, lead: map<string, Json>, provider: string, data: map<string, Json>,
                       tried: set<string>, n: nat, env: Env, events0: seq<Event>)
    returns (result: Attempt<Output>, events: seq<Event>)
    ensures var run := Flagged(lead, provider, data, tried, n, env, r.Snapshot(), events0);
            result == run.result && events == run.events
  {
    events := events0;
    var flags := PoisonValidator.ApplyConsensus(data);
    if flags.Raises? {
      return Raises, events;
    }
    var out := ChimeraFields(data) + flags.value;
    var high := PoisonValidator.IsHighValue(lead);
    if high.Raises? {
      return Raises, events;
    }
    if high.value {
      var checked := CrossCheck(provider, data, tried, n, env, events);
      events := checked.1;
      if checked.0 {
        out := out[PoisonValidator.NeedsReconciliation := JBool(true)];
      }
    }
    result := Ok((out, PipelineTypes.Continue));
  }

  /**
   * `ChimeraStation.process` on store `r`: the pause wait, then the
   * provider loop, which takes the router's pick first and its next pick
   * after every failure, adding each provider to `tried` before its
   * mission is pushed.
   */
  method ChimeraOnStore(r: Redis.Store, lead: map<string, Json>, env: Env)
    returns (result: Attempt<Output>, events: seq<Event>)
    requires RouterFresh(env)
    modifies r
    ensures var run := Chimera(lead, env, old(r.Snapshot()));
            result == run.result && events == run.events && r.Snapshot() == run.db
  {
    events := [];
    var url := UrlOf(lead);
    if !url.Truthy() {
      return Ok((map[], PipelineTypes.Fail)), events;
    }
    var waited := PauseWait(env.paused);
    if env.paused(waited) {
      return Ok((map[], PipelineTypes.Continue)), events;
    }
    var leadId := PyStr(url);
    var tried: set<string> := {};
    var failed: Option<string> := None;
    var n: nat := 0;
    while true
      invariant r.Snapshot() == old(r.Snapshot())
      invariant Loop(lead, leadId, tried, failed, n, env, r.Snapshot(), events) == Chimera(lead, env, old(r.Snapshot()))
      decreases |env.magazine - tried| + (if tried == {} then 1 else 0)
    {
      var provider: string;
      if tried == {} {
        provider := env.select;
      } else {
        if failed.None? {
          break;
        }
        var next := env.next(failed.value, tried);
        if next.None? {
          return Ok((map[], PipelineTypes.Continue)), events;
        }
        provider := next.value;
      }
      FreshShrinks(env.magazine, tried, provider);
      tried := tried + {provider};
      var reply := env.reply(provider, n);
      n := n + 1;
      if !reply.PushFailed? {
        events := events + [Pushed(provider)];
      }
      var verdict := Judge(reply, env.parse);
      if verdict.Failure? {
        events := events + [ProviderRecorded(provider, false), CarrierRecorded(ChimeraDomain(provider), false)];
        failed := Some(provider);
        continue;
      }
      result, events := FinishOnStore(r, lead, leadId, provider, verdict.data, tried, n, env, events);
      return;
    }
    result := Ok((map[], PipelineTypes.Continue));
  }

  // ---------------------------------------------------------------------
  // The other stations
  // ---------------------------------------------------------------------

  /** The dictionary `resolve_identity` returns. */
  function IdentityFields(id: IdentityResolution.Identity): (m: map<string, Json>)
    ensures m.Keys == {"firstName", "lastName", "fullName", "city", "state", "zipcode",
                       "company", "title", "linkedinUrl", "platform", "email"}
  {
    map["firstName" := JStr(id.firstName), "lastName" := JStr(id.lastName), "fullName" := JStr(id.fullName),
        "city" := JStr(id.city), "state" := JStr(id.state), "zipcode" := JStr(id.zipcode),
        "company" := id.company, "title" := id.title, "linkedinUrl" := id.linkedinUrl,
        "platform" := id.platform, "email" := id.email]
  }

  /** `IdentityStation.process`: the resolved identity, or FAIL when it raises or lacks a first or last name. */
  function IdentityStation(data: map<string, Json>): (o: Output)
    ensures o.1 == PipelineTypes.Fail || o.1 == PipelineTypes.Continue
    ensures o.1 == PipelineTypes.Continue <==>
              IdentityResolution.ResolveIdentity(data).Some? &&
              IdentityResolution.ResolveIdentity(data).value.firstName != "" &&
              IdentityResolution.ResolveIdentity(data).value.lastName != ""
    ensures o.1 == PipelineTypes.Fail ==> o.0 == map[]
    ensures o.1 == PipelineTypes.Continue ==> o.0 == IdentityFields(IdentityResolution.ResolveIdentity(data).value)
  {
    match IdentityResolution.ResolveIdentity(data)
    case None => (map[], PipelineTypes.Fail)
    case Some(id) =>
      if id.firstName == "" || id.lastName == "" then (map[], PipelineTypes.Fail)
      else (IdentityFields(id), PipelineTypes.Continue)
  }

  /**
   * `SkipTracingStation.process`: nothing to do when a phone is known;
   * otherwise the skip-trace result when it has a phone, else FAIL.
   */
  function SkipTracingStation(data: map<string, Json>, spider: Option<map<string, Json>>, apiKeySet: bool,
                              byEmail: SkipTracing.Fetch, primary: SkipTracing.Fetch, alternative: SkipTracing.Fetch)
    : (o: Output)
    ensures Get(data, "phone").Truthy() ==> o == (map[], PipelineTypes.Continue)
    ensures !Get(data, "phone").Truthy() ==>
              var found := SkipTracing.SkipTrace(data, spider, apiKeySet, byEmail, primary, alternative);
              (o.1 == PipelineTypes.Continue <==> Get(found, "phone").Truthy()) &&
              (o.1 == PipelineTypes.Continue ==> o.0 == found) &&
              (o.1 != PipelineTypes.Continue ==> o == (map[], PipelineTypes.Fail))
  {
    if Get(data, "phone").Truthy() then (map[], PipelineTypes.Continue)
    else
      var found := SkipTracing.SkipTrace(data, spider, apiKeySet, byEmail, primary, alternative);
      if Get(found, "phone").Truthy() then (found, PipelineTypes.Continue) else (map[], PipelineTypes.Fail)
  }

  /** `validation.get(k, False)` read for truthiness. */
  predicate Flag(validation: map<string, Json>, k: string) {
    k in validation && validation[k].Truthy()
  }

  /** A number the phone check rejects: junk, VOIP, or a landline that is not mobile. */
  predicate Rejected(validation: map<string, Json>) {
    Flag(validation, "is_junk") || Flag(validation, "is_voip") ||
    (Flag(validation, "is_landline") && !Flag(validation, "is_mobile"))
  }

  /**
   * `TelnyxGatekeepStation.process`: FAIL without a phone; the validation
   * with SKIP_REMAINING for a rejected number, CONTINUE otherwise; an
   * error in the validator lets the pipeline go on with nothing.
   */
  function TelnyxStation(data: map<string, Json>, validation: Attempt<map<string, Json>>): (o: Output)
    ensures !Get(data, "phone").Truthy() <==> o == (map[], PipelineTypes.Fail)
    ensures o.1 == PipelineTypes.SkipRemaining <==>
              Get(data, "phone").Truthy() && validation.Ok? && Rejected(validation.value)
    ensures Get(data, "phone").Truthy() && validation.Ok? ==> o.0 == validation.value
    ensures Get(data, "phone").Truthy() && validation.Raises? ==> o == (map[], PipelineTypes.Continue)
  {
    if !Get(data, "phone").Truthy() then (map[], PipelineTypes.Fail)
    else
      match validation
      case Raises => (map[], PipelineTypes.Continue)
      case Ok(v) => (v, if Rejected(v) then PipelineTypes.SkipRemaining else PipelineTypes.Continue)
  }

  /** A mobile number that is neither junk nor VOIP always passes. */
  lemma MobilePasses(data: map<string, Json>, validation: map<string, Json>)
    requires Get(data, "phone").Truthy()
    requires Flag(validation, "is_mobile") && !Flag(validation, "is_junk") && !Flag(validation, "is_voip")
    ensures TelnyxStation(data, Ok(validation)) == (validation, PipelineTypes.Continue)
  {
  }

  /** `DNCGatekeeperStation.process`: scrubbing is switched off, so every lead may be contacted. */
  function DncStation(data: map<string, Json>): (o: Output)
    ensures o.1 == PipelineTypes.Continue
    ensures o.0.Keys == {"dnc_status", "can_contact"} && o.0["can_contact"] == JBool(true)
  {
    (map["dnc_status" := JStr("SKIPPED"), "can_contact" := JBool(true)], PipelineTypes.Continue)
  }

  /**
   * `DatabaseSaveStation.process`: `saved` reports the save, and a failed
   * save fails the lead.
   */
  function SaveStation(configured: bool, data: map<string, Json>, t: Database.Table,
                       accepts: (Json, Database.Row) -> bool, dumps: Json -> string, now: string): (r: (Output, Database.Table))
    ensures r.0.0 == map["saved" := JBool(Database.Save(configured, data, t, accepts, dumps, now).0)]
    ensures r.0.1 == PipelineTypes.Continue <==> Database.Save(configured, data, t, accepts, dumps, now).0
    ensures r.0.1 != PipelineTypes.Continue ==> r.0.1 == PipelineTypes.Fail
    ensures r.1 == Database.Save(configured, data, t, accepts, dumps, now).1
  {
    var (saved, t') := Database.Save(configured, data, t, accepts, dumps, now);
    ((map["saved" := JBool(saved)], if saved then PipelineTypes.Continue else PipelineTypes.Fail), t')
  }
}
