/**
 * The pipeline engine: runs a route of stations in order over one
 * context, records what each station returned, stops early when a station
 * asks to skip the rest, and reports the run's cost and counts in the
 * final data.
 *
 * A station's `execute` is a parameter: given the station and the current
 * context it either returns new data with a stop condition or raises.
 */
module PipelineEngine {
  import opened Wrappers
  import opened Json
  import opened PipelineTypes

  /** A station of the route: its name and its estimated (and charged) cost. */
  datatype Station = Station(name: string, costEstimate: real)

  /** What `station.execute(ctx)` did. */
  datatype StationResult =
    | Returned(newData: map<string, Json>, condition: StopCondition)
    | Raised(message: string)

  /** An entry of the step collector; start time and duration are not modelled. */
  datatype StepEntry = StepEntry(station: string, condition: string, status: string,
                                 error: Option<string>, recentLogs: Option<seq<string>>)

  function StatusOf(c: StopCondition): string {
    match c
    case Continue => "ok"
    case SkipRemaining => "stop"
    case Fail => "fail"
  }

  /** The last twenty lines of the log buffer (all of them when there are fewer). */
  function Recent(logBuffer: seq<string>): (r: seq<string>)
    ensures |r| == (if |logBuffer| < 20 then |logBuffer| else 20)
    ensures r == logBuffer[|logBuffer| - |r|..]
  {
    if |logBuffer| > 20 then logBuffer[|logBuffer| - 20..] else logBuffer
  }

  /** The step entry recorded for a station. */
  function StepFor(station: Station, result: StationResult, logBuffer: seq<string>): StepEntry {
    match result
    case Returned(_, c) => StepEntry(station.name, c.Value(), StatusOf(c), None, None)
    case Raised(m) =>
      var recent := Recent(logBuffer);
      StepEntry(station.name, "fail", "fail", Some(m), if recent != [] then Some(recent) else None)
  }

  lemma StepForStatus(station: Station, result: StationResult, logBuffer: seq<string>)
    ensures var e := StepFor(station, result, logBuffer);
            e.station == station.name &&
            (e.status == "stop" <==> result.Returned? && result.condition == SkipRemaining) &&
            (e.status == "ok" <==> result.Returned? && result.condition == Continue) &&
            (e.error.Some? <==> result.Raised?) &&
            (e.recentLogs.Some? ==> 0 < |e.recentLogs.value| <= 20)
  {
  }

  /**
   * The context after one station: a raising station has its message
   * logged; a returning one is charged its estimate and recorded.
   */
  function After(l: Ledger, station: Station, result: StationResult): Ledger {
    match result
    case Raised(m) => l.(errors := l.errors + [m])
    case Returned(d, c) => l.Update(d, station.name, station.costEstimate, c, None)
  }

  /** Skipping the rest ends the run. */
  predicate Stops(result: StationResult) {
    result.Returned? && result.condition == SkipRemaining
  }

  /** The rest of the run from context `l` with collected steps `steps`. */
  function RunRoute(l: Ledger, steps: seq<StepEntry>, route: seq<Station>,
                    exec: (Station, Ledger) -> StationResult, logBuffer: seq<string>): (Ledger, seq<StepEntry>)
    decreases |route|
  {
    if route == [] then (l, steps)
    else
      var result := exec(route[0], l);
      var l' := After(l, route[0], result);
      var steps' := steps + [StepFor(route[0], result, logBuffer)];
      if Stops(result) then (l', steps') else RunRoute(l', steps', route[1..], exec, logBuffer)
  }

  /** The number of collected steps whose station raised. */
  function RaiseCount(steps: seq<StepEntry>): nat {
    if steps == [] then 0 else RaiseCount(steps[..|steps| - 1]) + (if steps[|steps| - 1].error.Some? then 1 else 0)
  }

  /**
   * One station: a raise adds one error and no history; a return adds one
   * history entry and no error; the cost stays the sum of the history.
   */
  lemma AfterAccounts(l: Ledger, steps: seq<StepEntry>, station: Station, result: StationResult, logBuffer: seq<string>)
    ensures var l' := After(l, station, result);
            var e := StepFor(station, result, logBuffer);
            RaiseCount(steps + [e]) == RaiseCount(steps) + (if result.Raised? then 1 else 0) &&
            |l'.errors| == |l.errors| + (if result.Raised? then 1 else 0) &&
            |l'.history| == |l.history| + (if result.Raised? then 0 else 1) &&
            l'.budgetLimit == l.budgetLimit &&
            (l.Balanced() ==> l'.Balanced())
  {
    assert (steps + [StepFor(station, result, logBuffer)])[..|steps|] == steps;
    if result.Returned? {
      UpdateAccounts(l, result.newData, station.name, station.costEstimate, result.condition, None);
    }
  }

  /** The run after the first station, when it did not skip the rest. */
  lemma RunUnfold(l: Ledger, steps: seq<StepEntry>, route: seq<Station>,
                  exec: (Station, Ledger) -> StationResult, logBuffer: seq<string>)
    requires route != []
    ensures var result := exec(route[0], l);
            var l' := After(l, route[0], result);
            var steps' := steps + [StepFor(route[0], result, logBuffer)];
            RunRoute(l, steps, route, exec, logBuffer) ==
              if Stops(result) then (l', steps') else RunRoute(l', steps', route[1..], exec, logBuffer)
  {
  }

  /** One step entry per station attempted, in route order. */
  lemma {:induction false} RunSteps(l: Ledger, steps: seq<StepEntry>, route: seq<Station>,
                                    exec: (Station, Ledger) -> StationResult, logBuffer: seq<string>)
    ensures var s' := RunRoute(l, steps, route, exec, logBuffer).1;
            |steps| <= |s'| <= |steps| + |route| &&
            s'[..|steps|] == steps &&
            forall j :: |steps| <= j < |s'| ==> s'[j].station == route[j - |steps|].name
    decreases |route|
  {
    if route != [] {
      var result := exec(route[0], l);
      var e := StepFor(route[0], result, logBuffer);
      var steps' := steps + [e];
      RunUnfold(l, steps, route, exec, logBuffer);
      assert e.station == route[0].name;
      if Stops(result) {
        assert RunRoute(l, steps, route, exec, logBuffer).1 == steps';
        assert steps'[..|steps|] == steps;
      } else {
        var l' := After(l, route[0], result);
        RunSteps(l', steps', route[1..], exec, logBuffer);
        var s' := RunRoute(l', steps', route[1..], exec, logBuffer).1;
        assert RunRoute(l, steps, route, exec, logBuffer).1 == s';
        assert s'[..|steps|] == steps by {
          assert s'[..|steps'|] == steps';
          assert s'[..|steps|] == s'[..|steps'|][..|steps|];
          assert steps'[..|steps|] == steps;
        }
        forall j | |steps| <= j < |s'|
          ensures s'[j].station == route[j - |steps|].name
        {
          if j == |steps| {
            assert s'[j] == s'[..|steps'|][j] == e;
          } else {
            assert route[1..][j - |steps'|] == route[j - |steps|];
          }
        }
      }
    }
  }

  /**
   * The counts of the context follow the steps: raises in the error log,
   * returns in the history, whose costs sum to the money spent.
   */
  lemma {:induction false} RunAccounts(l: Ledger, steps: seq<StepEntry>, route: seq<Station>,
                                       exec: (Station, Ledger) -> StationResult, logBuffer: seq<string>)
    ensures var r := RunRoute(l, steps, route, exec, logBuffer);
            |r.0.errors| + RaiseCount(steps) == |l.errors| + RaiseCount(r.1) &&
            |r.0.history| + RaiseCount(r.1) == |l.history| + |r.1| - |steps| + RaiseCount(steps) &&
            r.0.budgetLimit == l.budgetLimit &&
            (l.Balanced() ==> r.0.Balanced())
    decreases |route|
  {
    if route != [] {
      var result := exec(route[0], l);
      var steps' := steps + [StepFor(route[0], result, logBuffer)];
      RunUnfold(l, steps, route, exec, logBuffer);
      AfterAccounts(l, steps, route[0], result, logBuffer);
      if !Stops(result) {
        RunAccounts(After(l, route[0], result), steps', route[1..], exec, logBuffer);
      }
    }
  }

  /**
   * Only a station that asked to skip the rest ends the run early: no
   * station before the last one recorded did, and if stations were left
   * over, the last one recorded did.
   */
  lemma {:induction false} RunStopsOnlyOnSkip(l: Ledger, steps: seq<StepEntry>, route: seq<Station>,
                                              exec: (Station, Ledger) -> StationResult, logBuffer: seq<string>)
    ensures var s' := RunRoute(l, steps, route, exec, logBuffer).1;
            |steps| <= |s'| &&
            (forall j :: |steps| <= j < |s'| - 1 ==> s'[j].status != "stop") &&
            (|s'| < |steps| + |route| ==> |steps| < |s'| && s'[|s'| - 1].status == "stop")
    decreases |route|
  {
    RunSteps(l, steps, route, exec, logBuffer);
    if route != [] {
      var result := exec(route[0], l);
      var steps' := steps + [StepFor(route[0], result, logBuffer)];
      RunUnfold(l, steps, route, exec, logBuffer);
      StepForStatus(route[0], result, logBuffer);
      if !Stops(result) {
        RunStopsOnlyOnSkip(After(l, route[0], result), steps', route[1..], exec, logBuffer);
        RunSteps(After(l, route[0], result), steps', route[1..], exec, logBuffer);
        var s' := RunRoute(l, steps, route, exec, logBuffer).1;
        assert s'[|steps|] == steps'[|steps|];
      }
    }
  }

  /** The final data: the context's data plus the run's cost and counts. */
  function FinalData(l: Ledger): (r: map<string, Json>)
    ensures r.Keys == l.data.Keys + {"_pipeline_cost", "_pipeline_stations_executed", "_pipeline_errors"}
    ensures r["_pipeline_cost"] == JFloat(l.totalCost)
    ensures r["_pipeline_stations_executed"] == JInt(|l.history|)
    ensures r["_pipeline_errors"] == JInt(|l.errors|)
  {
    l.data["_pipeline_cost" := JFloat(l.totalCost)]["_pipeline_stations_executed" := JInt(|l.history|)]
          ["_pipeline_errors" := JInt(|l.errors|)]
  }

  /** A run's reported cost is the sum of the costs of the stations that returned. */
  lemma RunCost(initial: map<string, Json>, budgetLimit: real, route: seq<Station>,
                exec: (Station, Ledger) -> StationResult, logBuffer: seq<string>)
    ensures var l' := RunRoute(Fresh(initial, budgetLimit), [], route, exec, logBuffer).0;
            FinalData(l')["_pipeline_cost"] == JFloat(CostSum(l'.history))
  {
    RunAccounts(Fresh(initial, budgetLimit), [], route, exec, logBuffer);
  }

  /**
   * `run`: a fresh context over a copy of the initial data, the route in
   * order, then the final data. Steps are collected only when a collector
   * is given.
   */
  method Run(route: seq<Station>, budgetLimit: real, initial: map<string, Json>,
             exec: (Station, Ledger) -> StationResult, collecting: bool, logBuffer: seq<string>)
    returns (final: map<string, Json>, steps: seq<StepEntry>)
    ensures var (l', s') := RunRoute(Fresh(initial, budgetLimit), [], route, exec, logBuffer);
            final == FinalData(l') && steps == (if collecting then s' else [])
  {
    var ctx := new Context(initial, budgetLimit);
    ghost var trail: seq<StepEntry> := [];
    ghost var outcome := RunRoute(Fresh(initial, budgetLimit), [], route, exec, logBuffer);
    steps := [];
    var i := 0;
    while i < |route|
      invariant 0 <= i <= |route|
      invariant steps == if collecting then trail else []
      invariant outcome == RunRoute(ctx.State(), trail, route[i..], exec, logBuffer)
    {
      var station := route[i];
      assert route[i..][0] == station && route[i..][1..] == route[i + 1..];
      var result := exec(station, ctx.State());
      var entry := StepFor(station, result, logBuffer);
      trail := trail + [entry];
      if collecting {
        steps := steps + [entry];
      }
      match result {
        case Raised(m) =>
          ctx.LogError(m);
        case Returned(d, c) =>
          ctx.Update(d, station.name, station.costEstimate, c, None);
          if c == SkipRemaining {
            break;
          }
      }
      i := i + 1;
    }
    assert outcome == (ctx.State(), trail);
    final := ctx.data;
    final := final["_pipeline_cost" := JFloat(ctx.totalCost)];
    final := final["_pipeline_stations_executed" := JInt(|ctx.history|)];
    final := final["_pipeline_errors" := JInt(|ctx.errors|)];
  }
}
