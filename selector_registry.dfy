/**
 * The selector registry of the Trauma Center
 * (chimera_brain/world_model/selector_registry.py): selectors and failure
 * counters per (domain, intent), kept in Redis when a client is connected
 * and always mirrored, or replaced, by an in-memory dictionary.
 *
 * Every Redis call may raise; whether it does is a parameter (`fails`).
 * The Redis side is kept as two key spaces, selector documents and
 * counters, whose keys can never coincide (RedisKeysDisjoint).
 */
module SelectorRegistry {
  import opened Wrappers
  import opened Json

  const TraumaThreshold: int := 3

  /** The record `register_selector` stores. */
  datatype SelectorData = SelectorData(domain: string, intent: string, selector: string, selectorType: string,
                                       confidence: real, metadata: map<string, Json>)

  /** A value of the in-memory dictionary: a selector record or a failure counter. */
  datatype Entry = Record(data: SelectorData) | Count(n: int)

  /**
   * The registry's state: whether a Redis client is connected, the Redis
   * selector documents and counters by Redis key, and the in-memory
   * fallback dictionary.
   */
  datatype Registry = Registry(connected: bool, remoteSelectors: map<string, SelectorData>,
                               remoteCounts: map<string, int>, fallback: map<string, Entry>)

  function RedisKey(domain: string, intent: string): string { "selector:" + domain + ":" + intent }
  function RedisFailureKey(domain: string, intent: string): string { "selector_failures:" + domain + ":" + intent }
  function FallbackKey(domain: string, intent: string): string { domain + ":" + intent }
  function FallbackFailureKey(domain: string, intent: string): string { "failures:" + domain + ":" + intent }

  /** A selector key and a counter key in Redis never coincide: they differ at their ninth character. */
  lemma RedisKeysDisjoint(d1: string, i1: string, d2: string, i2: string)
    ensures RedisKey(d1, i1) != RedisFailureKey(d2, i2)
  {
    assert RedisKey(d1, i1)[8] == ':';
    assert RedisFailureKey(d2, i2)[8] == '_';
  }

  /**
   * In the fallback dictionary the two key spaces can meet: a selector
   * registered for domain "failures" sits where the counter of another
   * pair lives.
   */
  lemma FallbackKeysCanMeet()
    ensures FallbackKey("failures", "a:b") == FallbackFailureKey("a", "b")
  {
  }

  // ---------------------------------------------------------------------
  // Reading
  // ---------------------------------------------------------------------

  /** `get_selector`: Redis first when connected and the read succeeds, then the dictionary. */
  function GetSelector(st: Registry, domain: string, intent: string, fails: bool): (r: Option<Entry>)
    ensures st.connected && !fails && RedisKey(domain, intent) in st.remoteSelectors ==>
              r == Some(Record(st.remoteSelectors[RedisKey(domain, intent)]))
    ensures (!st.connected || fails || RedisKey(domain, intent) !in st.remoteSelectors) ==>
              r == (if FallbackKey(domain, intent) in st.fallback then Some(st.fallback[FallbackKey(domain, intent)]) else None)
  {
    if st.connected && !fails && RedisKey(domain, intent) in st.remoteSelectors then
      Some(Record(st.remoteSelectors[RedisKey(domain, intent)]))
    else if FallbackKey(domain, intent) in st.fallback then Some(st.fallback[FallbackKey(domain, intent)])
    else None
  }

  /**
   * `get_failure_count`: with a client connected only Redis is asked (an
   * error reads as 0); otherwise the dictionary's entry, 0 when missing.
   */
  function FailureCount(st: Registry, domain: string, intent: string, fails: bool): (r: Entry)
    ensures st.connected ==> r.Count?
    ensures st.connected && (fails || RedisFailureKey(domain, intent) !in st.remoteCounts) ==> r == Count(0)
    ensures !st.connected && FallbackFailureKey(domain, intent) !in st.fallback ==> r == Count(0)
  {
    if st.connected then
      if !fails && RedisFailureKey(domain, intent) in st.remoteCounts then Count(st.remoteCounts[RedisFailureKey(domain, intent)])
      else Count(0)
    else if FallbackFailureKey(domain, intent) in st.fallback then st.fallback[FallbackFailureKey(domain, intent)]
    else Count(0)
  }

  /**
   * `should_trigger_trauma_center`: only the failure count decides, at 3
   * or more; comparing a selector record that sits under the counter key
   * raises.
   */
  function ShouldTrigger(st: Registry, domain: string, intent: string, fails: bool): (r: Attempt<bool>)
    ensures FailureCount(st, domain, intent, fails).Count? ==>
              r == Ok(FailureCount(st, domain, intent, fails).n >= TraumaThreshold)
    ensures FailureCount(st, domain, intent, fails).Record? ==> r.Raises?
  {
    match FailureCount(st, domain, intent, fails)
    case Count(n) => Ok(n >= TraumaThreshold)
    case Record(_) => Raises
  }

  // ---------------------------------------------------------------------
  // Writing
  // ---------------------------------------------------------------------

  function MakeData(domain: string, intent: string, selector: string, selectorType: string,
                    confidence: real, metadata: Option<map<string, Json>>): SelectorData {
    SelectorData(domain, intent, selector, selectorType, confidence, if metadata.Some? then metadata.value else map[])
  }

  /**
   * `register_selector`: writes the record to Redis (when connected and
   * the write succeeds) and always to the dictionary; returns
   * "domain:intent".
   */
  function Register(st: Registry, data: SelectorData, fails: bool): (r: (string, Registry))
  {
    var remote := if st.connected && !fails then st.remoteSelectors[RedisKey(data.domain, data.intent) := data]
                  else st.remoteSelectors;
    (data.domain + ":" + data.intent,
     st.(remoteSelectors := remote, fallback := st.fallback[FallbackKey(data.domain, data.intent) := Record(data)]))
  }

  /**
   * `record_failure`: INCR in Redis when it works, leaving the dictionary
   * alone; otherwise the dictionary's counter (0 when missing) plus one.
   * A selector record under the counter key makes the addition raise.
   */
  function RecordFailure(st: Registry, domain: string, intent: string, fails: bool): (r: (Attempt<int>, Registry))
  {
    if st.connected && !fails then
      var k := RedisFailureKey(domain, intent);
      var n := (if k in st.remoteCounts then st.remoteCounts[k] else 0) + 1;
      (Ok(n), st.(remoteCounts := st.remoteCounts[k := n]))
    else
      var k := FallbackFailureKey(domain, intent);
      var prev := if k in st.fallback then st.fallback[k] else Count(0);
      if prev.Record? then (Raises, st)
      else (Ok(prev.n + 1), st.(fallback := st.fallback[k := Count(prev.n + 1)]))
  }

  /**
   * `record_success`: deletes the Redis counter when connected and the
   * call works, and deletes the dictionary's counter in every case.
   */
  function RecordSuccess(st: Registry, domain: string, intent: string, fails: bool): (r: Registry)
  {
    var remote := if st.connected && !fails then st.remoteCounts - {RedisFailureKey(domain, intent)} else st.remoteCounts;
    st.(remoteCounts := remote, fallback := st.fallback - {FallbackFailureKey(domain, intent)})
  }

  // ---------------------------------------------------------------------
  // Properties
  // ---------------------------------------------------------------------

  /**
   * After registering, reading the same pair gives the record back, both
   * from Redis and from the dictionary, unless the Redis write failed while
   * an older Redis record remains; the id is "domain:intent".
   */
  lemma GetAfterRegister(st: Registry, data: SelectorData, fails: bool, readFails: bool)
    requires !st.connected || !fails || RedisKey(data.domain, data.intent) !in st.remoteSelectors || readFails
    ensures var (id, st1) := Register(st, data, fails);
            id == FallbackKey(data.domain, data.intent) &&
            GetSelector(st1, data.domain, data.intent, readFails) == Some(Record(data))
  {
  }

  /** Registering touches no counter and no other pair's selector. */
  lemma RegisterFrame(st: Registry, data: SelectorData, fails: bool, domain: string, intent: string, f: bool)
    requires FallbackKey(domain, intent) != FallbackKey(data.domain, data.intent)
    requires FallbackFailureKey(domain, intent) != FallbackKey(data.domain, data.intent)
    ensures var st1 := Register(st, data, fails).1;
            FailureCount(st1, domain, intent, f) == FailureCount(st, domain, intent, f) &&
            (RedisKey(domain, intent) != RedisKey(data.domain, data.intent) ==>
               GetSelector(st1, domain, intent, f) == GetSelector(st, domain, intent, f))
  {
    RedisKeysDisjoint(data.domain, data.intent, domain, intent);
  }

  /**
   * A recorded failure returns the count read just before plus one (a
   * missing count being 0), and the next read sees the new count.
   */
  lemma FailureIncrements(st: Registry, domain: string, intent: string, fails: bool)
    requires FailureCount(st, domain, intent, fails).Count?
    requires st.connected ==> !fails
    ensures var (r, st1) := RecordFailure(st, domain, intent, fails);
            r == Ok(FailureCount(st, domain, intent, fails).n + 1) &&
            FailureCount(st1, domain, intent, fails) == Count(FailureCount(st, domain, intent, fails).n + 1)
  {
  }

  /**
   * A failure changes only that pair's counter: through Redis the
   * dictionary and the selectors are untouched; through the dictionary only
   * the "failures:domain:intent" entry changes.
   */
  lemma FailureFrame(st: Registry, domain: string, intent: string, fails: bool)
    ensures var st1 := RecordFailure(st, domain, intent, fails).1;
            st1.connected == st.connected && st1.remoteSelectors == st.remoteSelectors &&
            (st.connected && !fails ==>
               (st1.fallback == st.fallback &&
                forall k :: k != RedisFailureKey(domain, intent) ==>
                  (k in st1.remoteCounts <==> k in st.remoteCounts) &&
                  (k in st.remoteCounts ==> st1.remoteCounts[k] == st.remoteCounts[k]))) &&
            (!(st.connected && !fails) ==>
               (st1.remoteCounts == st.remoteCounts &&
                forall k :: k != FallbackFailureKey(domain, intent) ==>
                  (k in st1.fallback <==> k in st.fallback) &&
                  (k in st.fallback ==> st1.fallback[k] == st.fallback[k])))
  {
  }

  /**
   * After a success the count reads 0, unless Redis is connected, its
   * delete failed and the next read works; only that pair's counters go.
   */
  lemma SuccessResets(st: Registry, domain: string, intent: string, fails: bool, readFails: bool)
    requires !st.connected || !fails || readFails
    ensures var st1 := RecordSuccess(st, domain, intent, fails);
            FailureCount(st1, domain, intent, readFails) == Count(0) &&
            st1.remoteSelectors == st.remoteSelectors &&
            st1.fallback == st.fallback - {FallbackFailureKey(domain, intent)}
  {
  }

  /** Three failures in a row on a fresh pair trigger the Trauma Center; two do not. */
  lemma ThreeFailuresTrigger(st: Registry, domain: string, intent: string)
    requires FailureCount(st, domain, intent, false) == Count(0)
    ensures var st1 := RecordFailure(st, domain, intent, false).1;
            var st2 := RecordFailure(st1, domain, intent, false).1;
            var st3 := RecordFailure(st2, domain, intent, false).1;
            ShouldTrigger(st2, domain, intent, false) == Ok(false) &&
            ShouldTrigger(st3, domain, intent, false) == Ok(true)
  {
    FailureIncrements(st, domain, intent, false);
    var st1 := RecordFailure(st, domain, intent, false).1;
    FailureIncrements(st1, domain, intent, false);
    var st2 := RecordFailure(st1, domain, intent, false).1;
    FailureIncrements(st2, domain, intent, false);
  }

  /**
   * Without Redis, registering a selector for domain "failures" and
   * intent "a:b" puts a record under the counter of ("a", "b"), so deciding
   * on the Trauma Center for ("a", "b") raises.
   */
  lemma CollidingRecordRaises(st: Registry, data: SelectorData)
    requires !st.connected && data.domain == "failures" && data.intent == "a:b"
    ensures ShouldTrigger(Register(st, data, false).1, "a", "b", false).Raises?
  {
    FallbackKeysCanMeet();
  }

  // ---------------------------------------------------------------------
  // The registry object
  // ---------------------------------------------------------------------

  class Store {
    const connected: bool
    var remoteSelectors: map<string, SelectorData>
    var remoteCounts: map<string, int>
    var fallback: map<string, Entry>

    function Snapshot(): Registry
      reads this
    {
      Registry(connected, remoteSelectors, remoteCounts, fallback)
    }

    /** `__init__`: an empty dictionary, with or without a Redis client. */
    constructor (redisConnected: bool, remote: Registry)
      ensures Snapshot() == remote.(connected := redisConnected, fallback := map[])
    {
      connected := redisConnected;
      remoteSelectors := remote.remoteSelectors;
      remoteCounts := remote.remoteCounts;
      fallback := map[];
    }

    method RegisterSelector(domain: string, intent: string, selector: string, selectorType: string,
                            confidence: real, metadata: Option<map<string, Json>>, fails: bool) returns (id: string)
      modifies this
      ensures (id, Snapshot()) == Register(old(Snapshot()), MakeData(domain, intent, selector, selectorType, confidence, metadata), fails)
    {
      var data := MakeData(domain, intent, selector, selectorType, confidence, metadata);
      if connected && !fails {
        remoteSelectors := remoteSelectors[RedisKey(domain, intent) := data];
      }
      fallback := fallback[FallbackKey(domain, intent) := Record(data)];
      id := domain + ":" + intent;
    }

    method RecordFailureOnStore(domain: string, intent: string, fails: bool) returns (r: Attempt<int>)
      modifies this
      ensures (r, Snapshot()) == RecordFailure(old(Snapshot()), domain, intent, fails)
    {
      if connected && !fails {
        var k := RedisFailureKey(domain, intent);
        var n := (if k in remoteCounts then remoteCounts[k] else 0) + 1;
        remoteCounts := remoteCounts[k := n];
        return Ok(n);
      }
      var k := FallbackFailureKey(domain, intent);
      var prev := if k in fallback then fallback[k] else Count(0);
      if prev.Record? {
        return Raises;
      }
      fallback := fallback[k := Count(prev.n + 1)];
      return Ok(prev.n + 1);
    }

    method RecordSuccessOnStore(domain: string, intent: string, fails: bool)
      modifies this
      ensures Snapshot() == RecordSuccess(old(Snapshot()), domain, intent, fails)
    {
      if connected && !fails {
        remoteCounts := remoteCounts - {RedisFailureKey(domain, intent)};
      }
      var k := FallbackFailureKey(domain, intent);
      if k in fallback {
        fallback := fallback - {k};
      }
    }
  }
}
