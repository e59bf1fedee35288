/**
 * The Redis queue worker (scrapegoat/app/workers/redis_queue_worker.py):
 * pops a lead's JSON from `leads_to_enrich`, runs the pipeline on it, and
 * on failure either re-queues it after an exponential delay or, on the
 * third failure, moves it to the dead-letter list `failed_leads`. The
 * retry counters live in the worker's memory, keyed by the lead's id.
 *
 * `json.loads` and the pipeline run are parameters; the sleep is returned
 * as the delay it would wait.
 */
module QueueWorker {
  import opened Wrappers
  import opened Json
  import Redis
  import PipelineTypes
  import PipelineEngine

  const MaxRetries: nat := 3
  const RetryDelayBase: nat := 5
  const QueueName: string := "leads_to_enrich"
  const FailedQueueName: string := "failed_leads"

  function Pow2(k: nat): (p: nat)
    ensures p >= 1
  {
    if k == 0 then 1 else 2 * Pow2(k - 1)
  }

  /** The back-off before the `count`-th retry: 5 s, then twice as long each time. */
  function Delay(count: nat): (d: nat)
    requires count >= 1
    ensures d == RetryDelayBase * Pow2(count - 1)
    ensures count >= 2 ==> d == 2 * Delay(count - 1)
  {
    RetryDelayBase * Pow2(count - 1)
  }

  /** Below the retry limit the delays are 5 s and 10 s. */
  lemma RetryDelays()
    ensures Delay(1) == 5 && Delay(2) == 10
  {
  }

  // ---------------------------------------------------------------------
  // Processing one lead
  // ---------------------------------------------------------------------

  /** A run counts as a success exactly when the final data says the lead was saved. */
  predicate Succeeded(enriched: map<string, Json>) {
    Get(enriched, "saved").Truthy()
  }

  /** The data the pipeline run leaves for a lead, without a log buffer. */
  function Enriched(route: seq<PipelineEngine.Station>, budgetLimit: real, lead: map<string, Json>,
                    exec: (PipelineEngine.Station, PipelineTypes.Ledger) -> PipelineEngine.StationResult)
    : map<string, Json>
  {
    PipelineEngine.FinalData(PipelineEngine.RunRoute(PipelineTypes.Fresh(lead, budgetLimit), [], route, exec, []).0)
  }

  /**
   * `process_lead`: success is decided by the `saved` flag a station left
   * in the context; the run's own metadata cannot set it.
   */
  lemma ProcessLeadNeedsSave(route: seq<PipelineEngine.Station>, budgetLimit: real, lead: map<string, Json>,
                             exec: (PipelineEngine.Station, PipelineTypes.Ledger) -> PipelineEngine.StationResult)
    ensures var l := PipelineEngine.RunRoute(PipelineTypes.Fresh(lead, budgetLimit), [], route, exec, []).0;
            Succeeded(Enriched(route, budgetLimit, lead, exec)) <==> Get(l.data, "saved").Truthy()
  {
  }

  /** The context a run reaches does not depend on the log buffer or on the steps collected so far. */
  lemma {:induction false} RunIgnoresLogs(l: PipelineTypes.Ledger, s1: seq<PipelineEngine.StepEntry>,
                                          s2: seq<PipelineEngine.StepEntry>, route: seq<PipelineEngine.Station>,
                                          exec: (PipelineEngine.Station, PipelineTypes.Ledger) -> PipelineEngine.StationResult,
                                          b1: seq<string>, b2: seq<string>)
    ensures PipelineEngine.RunRoute(l, s1, route, exec, b1).0 == PipelineEngine.RunRoute(l, s2, route, exec, b2).0
    decreases |route|
  {
    if route != [] {
      PipelineEngine.RunUnfold(l, s1, route, exec, b1);
      PipelineEngine.RunUnfold(l, s2, route, exec, b2);
      var result := exec(route[0], l);
      if !PipelineEngine.Stops(result) {
        RunIgnoresLogs(PipelineEngine.After(l, route[0], result),
                       s1 + [PipelineEngine.StepFor(route[0], result, b1)],
                       s2 + [PipelineEngine.StepFor(route[0], result, b2)], route[1..], exec, b1, b2);
      }
    }
  }

  /**
   * `process_lead_async_with_steps` as written: it passes a
   * `progress_queue` keyword that `PipelineEngine.run` does not accept, so
   * the call raises before any station runs and the handler reports
   * failure with no steps.
   */
  function ProcessWithStepsAsWritten(route: seq<PipelineEngine.Station>, budgetLimit: real, lead: map<string, Json>,
                                     exec: (PipelineEngine.Station, PipelineTypes.Ledger) -> PipelineEngine.StationResult,
                                     logBuffer: seq<string>): (r: (bool, seq<PipelineEngine.StepEntry>))
    ensures !r.0 && r.1 == []
  {
    (false, [])
  }

  /** `process_lead_async_with_steps` with the run called as the engine defines it. */
  function ProcessWithSteps(route: seq<PipelineEngine.Station>, budgetLimit: real, lead: map<string, Json>,
                            exec: (PipelineEngine.Station, PipelineTypes.Ledger) -> PipelineEngine.StationResult,
                            logBuffer: seq<string>): (r: (bool, seq<PipelineEngine.StepEntry>))
  {
    var (l, steps) := PipelineEngine.RunRoute(PipelineTypes.Fresh(lead, budgetLimit), [], route, exec, logBuffer);
    (Succeeded(PipelineEngine.FinalData(l)), steps)
  }

  /**
   * The corrected call reports the same success as `process_lead`, and one
   * step per station run, in route order.
   */
  lemma ProcessWithStepsAgrees(route: seq<PipelineEngine.Station>, budgetLimit: real, lead: map<string, Json>,
                               exec: (PipelineEngine.Station, PipelineTypes.Ledger) -> PipelineEngine.StationResult,
                               logBuffer: seq<string>)
    ensures var (ok, steps) := ProcessWithSteps(route, budgetLimit, lead, exec, logBuffer);
            ok == Succeeded(Enriched(route, budgetLimit, lead, exec)) &&
            |steps| <= |route| && (route != [] ==> |steps| >= 1) &&
            forall j :: 0 <= j < |steps| ==> steps[j].station == route[j].name
  {
    var l0 := PipelineTypes.Fresh(lead, budgetLimit);
    RunIgnoresLogs(l0, [], [], route, exec, logBuffer, []);
    PipelineEngine.RunSteps(l0, [], route, exec, logBuffer);
    if route != [] {
      PipelineEngine.RunUnfold(l0, [], route, exec, logBuffer);
      var result := exec(route[0], l0);
      var steps1: seq<PipelineEngine.StepEntry> := [] + [PipelineEngine.StepFor(route[0], result, logBuffer)];
      if !PipelineEngine.Stops(result) {
        PipelineEngine.RunSteps(PipelineEngine.After(l0, route[0], result), steps1, route[1..], exec, logBuffer);
      }
    }
  }

  /** A save station that always saves. */
  function SaveAlways(station: PipelineEngine.Station, l: PipelineTypes.Ledger): PipelineEngine.StationResult {
    PipelineEngine.Returned(map["saved" := JBool(true)], PipelineTypes.Continue)
  }

  /**
   * A one-station route that saves the lead: the corrected call reports
   * success with one step, the call as written reports failure with none.
   */
  lemma ProgressQueueFinding()
    ensures var route := [PipelineEngine.Station("Database Save", 0.0)];
            ProcessWithSteps(route, 5.0, map[], SaveAlways, []).0 &&
            |ProcessWithSteps(route, 5.0, map[], SaveAlways, []).1| == 1 &&
            ProcessWithStepsAsWritten(route, 5.0, map[], SaveAlways, []) == (false, [])
  {
    var route := [PipelineEngine.Station("Database Save", 0.0)];
    var l0 := PipelineTypes.Fresh(map[], 5.0);
    PipelineEngine.RunUnfold(l0, [], route, SaveAlways, []);
    var l1 := PipelineEngine.After(l0, route[0], SaveAlways(route[0], l0));
    assert l1.data == map["saved" := JBool(true)];
    assert route[1..] == [];
  }

  // ---------------------------------------------------------------------
  // The worker loop
  // ---------------------------------------------------------------------

  /** The retry key: `linkedinUrl` when truthy, else `name`, else "unknown". */
  function LeadId(lead: map<string, Json>): (id: Json)
    ensures Get(lead, "linkedinUrl").Truthy() ==> id == lead["linkedinUrl"]
    ensures !Get(lead, "linkedinUrl").Truthy() && "name" in lead ==> id == lead["name"]
    ensures !Get(lead, "linkedinUrl").Truthy() && "name" !in lead ==> id == JStr("unknown")
  {
    Or(Get(lead, "linkedinUrl"), if "name" in lead then lead["name"] else JStr("unknown"))
  }

  /** Lists and dictionaries cannot be dictionary keys; using one raises. */
  predicate Hashable(id: Json) {
    !id.JList? && !id.JObj?
  }

  /** Every stored counter lies between one and one below the limit. */
  predicate Bounded(retry: map<Json, nat>) {
    forall id :: id in retry ==> 1 <= retry[id] <= MaxRetries - 1
  }

  /** The state after one iteration and the delay it slept, if any. */
  datatype Tick = Tick(retry: map<Json, nat>, db: Redis.Db, delay: Option<nat>)

  /** A failed lead: counted, then dead-lettered at the limit or re-queued after its delay. */
  function Failed(retry: map<Json, nat>, db: Redis.Db, id: Json, leadJson: string): Tick {
    var count := (if id in retry then retry[id] else 0) + 1;
    if count >= MaxRetries then Tick(retry - {id}, db.LPush(FailedQueueName, leadJson), None)
    else Tick(retry[id := count], db.LPush(QueueName, leadJson), Some(Delay(count)))
  }

  /**
   * One iteration of `worker_loop`: pop the oldest lead; nothing happens
   * when the queue is empty. A lead that does not parse to a dictionary,
   * or whose id cannot be a key, goes to the dead-letter list. Otherwise
   * the pipeline runs; success forgets the lead's counter.
   */
  function Step(retry: map<Json, nat>, db: Redis.Db, parse: string -> Option<Json>,
                process: map<string, Json> -> bool): (r: Tick)
    ensures Bounded(retry) ==> Bounded(r.retry)
    ensures db.List(QueueName) == [] ==> r == Tick(retry, db, None)
  {
    var popped := db.RPop(QueueName);
    match popped.0
    case None => Tick(retry, popped.1, None)
    case Some(leadJson) =>
      match parse(leadJson)
      case Some(JObj(lead)) =>
        var id := LeadId(lead);
        if !Hashable(id) then Tick(retry, popped.1.LPush(FailedQueueName, leadJson), None)
        else if process(lead) then Tick(retry - {id}, popped.1, None)
        else Failed(retry, popped.1, id, leadJson)
      case _ => Tick(retry, popped.1.LPush(FailedQueueName, leadJson), None)
  }

  /** Every iteration keeps each stored counter within [1, MAX_RETRIES - 1]. */
  lemma StepKeepsBounds(retry: map<Json, nat>, db: Redis.Db, parse: string -> Option<Json>,
                        process: map<string, Json> -> bool)
    requires Bounded(retry)
    ensures Bounded(Step(retry, db, parse, process).retry)
  {
  }

  /** The queue and the dead-letter list are different lists. */
  lemma QueuesDiffer()
    ensures QueueName != FailedQueueName
  {
    assert QueueName[0] != FailedQueueName[0];
  }

  /** Popping the oldest lead, then pushing onto either list, touches only those two lists as stated. */
  lemma PopThenPush(db: Redis.Db, target: string, v: string)
    requires db.List(QueueName) != []
    requires target == QueueName || target == FailedQueueName
    ensures var q := db.List(QueueName);
            var p := db.RPop(QueueName);
            p.0 == Some(q[|q| - 1]) &&
            p.1.List(QueueName) == q[..|q| - 1] &&
            p.1.List(FailedQueueName) == db.List(FailedQueueName) &&
            p.1.LPush(target, v).List(QueueName) == (if target == QueueName then [v] + q[..|q| - 1] else q[..|q| - 1]) &&
            p.1.LPush(target, v).List(FailedQueueName) ==
              (if target == FailedQueueName then [v] + db.List(FailedQueueName) else db.List(FailedQueueName))
  {
    QueuesDiffer();
    var q := db.List(QueueName);
    var p := db.RPop(QueueName);
    assert p.1 == db.PutList(QueueName, q[..|q| - 1]);
    assert p.1.List(QueueName) == q[..|q| - 1];
    assert p.1.List(FailedQueueName) == db.List(FailedQueueName);
    var d := p.1.LPush(target, v);
    assert d == p.1.PutList(target, [v] + p.1.List(target));
  }

  /** An empty queue: nothing changes. */
  lemma StepIdle(retry: map<Json, nat>, db: Redis.Db, parse: string -> Option<Json>,
                 process: map<string, Json> -> bool)
    requires db.List(QueueName) == []
    ensures Step(retry, db, parse, process) == Tick(retry, db, None)
  {
  }

  /**
   * A popped lead whose JSON does not parse to a dictionary goes to the
   * head of the dead-letter list; the counters are untouched.
   */
  lemma StepMalformed(retry: map<Json, nat>, db: Redis.Db, parse: string -> Option<Json>,
                      process: map<string, Json> -> bool)
    requires db.List(QueueName) != []
    requires var j := parse(db.List(QueueName)[|db.List(QueueName)| - 1]); j.None? || !j.value.JObj?
    ensures var q := db.List(QueueName);
            var t := Step(retry, db, parse, process);
            t.retry == retry && t.delay == None &&
            t.db.List(QueueName) == q[..|q| - 1] &&
            t.db.List(FailedQueueName) == [q[|q| - 1]] + db.List(FailedQueueName)
  {
    var q := db.List(QueueName);
    var p := db.RPop(QueueName);
    PopThenPush(db, FailedQueueName, q[|q| - 1]);
    assert Step(retry, db, parse, process) == Tick(retry, p.1.LPush(FailedQueueName, q[|q| - 1]), None);
  }

  /** A lead that was saved leaves the queue and loses its counter; the dead-letter list is untouched. */
  lemma StepSuccess(retry: map<Json, nat>, db: Redis.Db, parse: string -> Option<Json>,
                    process: map<string, Json> -> bool, lead: map<string, Json>)
    requires db.List(QueueName) != []
    requires parse(db.List(QueueName)[|db.List(QueueName)| - 1]) == Some(JObj(lead))
    requires Hashable(LeadId(lead)) && process(lead)
    ensures var q := db.List(QueueName);
            var t := Step(retry, db, parse, process);
            LeadId(lead) !in t.retry && t.delay == None &&
            t.db.List(QueueName) == q[..|q| - 1] && t.db.List(FailedQueueName) == db.List(FailedQueueName)
  {
    var q := db.List(QueueName);
    var p := db.RPop(QueueName);
    PopThenPush(db, FailedQueueName, q[|q| - 1]);
    assert Step(retry, db, parse, process) == Tick(retry - {LeadId(lead)}, p.1, None);
  }

  /**
   * A failure below the limit stores the new count and puts the same JSON
   * back at the head of the queue, behind every lead already waiting,
   * after a delay of 5 * 2^(count - 1) seconds.
   */
  lemma StepRequeue(retry: map<Json, nat>, db: Redis.Db, parse: string -> Option<Json>,
                    process: map<string, Json> -> bool, lead: map<string, Json>)
    requires db.List(QueueName) != []
    requires parse(db.List(QueueName)[|db.List(QueueName)| - 1]) == Some(JObj(lead))
    requires Hashable(LeadId(lead)) && !process(lead)
    requires var id := LeadId(lead); (if id in retry then retry[id] else 0) + 1 < MaxRetries
    ensures var q := db.List(QueueName);
            var id := LeadId(lead);
            var count := (if id in retry then retry[id] else 0) + 1;
            var t := Step(retry, db, parse, process);
            t.retry == retry[id := count] && t.delay == Some(RetryDelayBase * Pow2(count - 1)) &&
            t.db.List(QueueName) == [q[|q| - 1]] + q[..|q| - 1] &&
            t.db.List(FailedQueueName) == db.List(FailedQueueName)
  {
    var q := db.List(QueueName);
    var p := db.RPop(QueueName);
    PopThenPush(db, QueueName, q[|q| - 1]);
    assert Step(retry, db, parse, process) == Failed(retry, p.1, LeadId(lead), q[|q| - 1]);
  }

  /**
   * The failure that reaches the limit pushes the JSON once to the
   * dead-letter list and clears the counter; the lead is not re-queued.
   */
  lemma StepDeadLetter(retry: map<Json, nat>, db: Redis.Db, parse: string -> Option<Json>,
                       process: map<string, Json> -> bool, lead: map<string, Json>)
    requires db.List(QueueName) != []
    requires parse(db.List(QueueName)[|db.List(QueueName)| - 1]) == Some(JObj(lead))
    requires Hashable(LeadId(lead)) && !process(lead)
    requires var id := LeadId(lead); id in retry && retry[id] == MaxRetries - 1
    ensures var q := db.List(QueueName);
            var t := Step(retry, db, parse, process);
            LeadId(lead) !in t.retry && t.delay == None &&
            t.db.List(QueueName) == q[..|q| - 1] &&
            t.db.List(FailedQueueName) == [q[|q| - 1]] + db.List(FailedQueueName)
  {
    var q := db.List(QueueName);
    var p := db.RPop(QueueName);
    PopThenPush(db, FailedQueueName, q[|q| - 1]);
    assert Step(retry, db, parse, process) == Failed(retry, p.1, LeadId(lead), q[|q| - 1]);
  }

  /** `count` further iterations from the given state. */
  function Iterate(retry: map<Json, nat>, db: Redis.Db, parse: string -> Option<Json>,
                   process: map<string, Json> -> bool, count: nat): (r: Tick)
    ensures Bounded(retry) ==> Bounded(r.retry)
    decreases count
  {
    if count == 0 then Tick(retry, db, None)
    else
      var t := Step(retry, db, parse, process);
      Iterate(t.retry, t.db, parse, process, count - 1)
  }

  /** The worker: its in-memory retry counters. */
  class Worker {
    var retryCount: map<Json, nat>

    constructor()
      ensures retryCount == map[]
    {
      retryCount := map[];
    }

    /** One iteration of the loop against store `r`. */
    method StepOnStore(r: Redis.Store, parse: string -> Option<Json>, process: map<string, Json> -> bool)
      returns (delay: Option<nat>)
      modifies this, r
      ensures Tick(retryCount, r.Snapshot(), delay) == Step(old(retryCount), old(r.Snapshot()), parse, process)
    {
      ghost var db0, retry0 := r.Snapshot(), retryCount;
      delay := None;
      var popped := r.RPop(QueueName);
      ghost var db1 := r.Snapshot();
      assert (popped, db1) == db0.RPop(QueueName);
      if popped.None? {
        return;
      }
      var leadJson := popped.value;
      var parsed := parse(leadJson);
      if !(parsed.Some? && parsed.value.JObj?) {
        assert Step(retry0, db0, parse, process) == Tick(retry0, db1.LPush(FailedQueueName, leadJson), None);
        r.LPush(FailedQueueName, leadJson);
        return;
      }
      var lead := parsed.value.fields;
      var id := LeadId(lead);
      if !Hashable(id) {
        assert Step(retry0, db0, parse, process) == Tick(retry0, db1.LPush(FailedQueueName, leadJson), None);
        r.LPush(FailedQueueName, leadJson);
        return;
      }
      if process(lead) {
        assert Step(retry0, db0, parse, process) == Tick(retry0 - {id}, db1, None);
        if id in retryCount {
          retryCount := retryCount - {id};
        }
        return;
      }
      assert Step(retry0, db0, parse, process) == Failed(retry0, db1, id, leadJson);
      delay := FailOnStore(r, id, leadJson);
    }

    /** A failed run: count it, then dead-letter the lead at the limit or re-queue it. */
    method FailOnStore(r: Redis.Store, id: Json, leadJson: string) returns (delay: Option<nat>)
      modifies this, r
      ensures Tick(retryCount, r.Snapshot(), delay) == Failed(old(retryCount), old(r.Snapshot()), id, leadJson)
    {
      retryCount := retryCount[id := (if id in retryCount then retryCount[id] else 0) + 1];
      if retryCount[id] >= MaxRetries {
        r.LPush(FailedQueueName, leadJson);
        retryCount := retryCount - {id};
        delay := None;
      } else {
        delay := Some(RetryDelayBase * Pow2(retryCount[id] - 1));
        r.LPush(QueueName, leadJson);
      }
    }

    /** The first `count` iterations of `worker_loop`; the counters stay within their bounds throughout. */
    method ServeOnStore(r: Redis.Store, parse: string -> Option<Json>, process: map<string, Json> -> bool, count: nat)
      requires Bounded(retryCount)
      modifies this, r
      ensures Bounded(retryCount)
      ensures var t := Iterate(old(retryCount), old(r.Snapshot()), parse, process, count);
              retryCount == t.retry && r.Snapshot() == t.db
    {
      var i := 0;
      while i < count
        invariant 0 <= i <= count
        invariant Bounded(retryCount)
        invariant Iterate(retryCount, r.Snapshot(), parse, process, count - i) ==
                  Iterate(old(retryCount), old(r.Snapshot()), parse, process, count)
      {
        StepKeepsBounds(retryCount, r.Snapshot(), parse, process);
        var _ := StepOnStore(r, parse, process);
        i := i + 1;
      }
    }
  }
}
