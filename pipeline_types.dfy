/**
 * The pipeline's context: the lead data carried from station to station,
 * the money spent, the per-station history and the error log, with the
 * budget queries stations consult before running.
 *
 * `Ledger` is the context as a value; `Context` is the object the engine
 * updates in place, whose state is always a `Ledger`.
 */
module PipelineTypes {
  import opened Wrappers
  import opened Json

  /** How the pipeline proceeds after a station. */
  datatype StopCondition = Continue | SkipRemaining | Fail
  {
    /** The enum's string value. */
    function Value(): string {
      match this
      case Continue => "continue"
      case SkipRemaining => "skip_rest"
      case Fail => "fail"
    }
  }

  lemma StopConditionValuesDistinct(a: StopCondition, b: StopCondition)
    ensures a.Value() == b.Value() <==> a == b
  {
  }

  /** One history record; the timestamp is not modelled. */
  datatype HistoryEntry = HistoryEntry(station: string, cost: real, status: StopCondition, error: Option<string>)

  /** `if error:` for an optional message: present and non-empty. */
  predicate HasError(error: Option<string>) {
    error.Some? && error.value != ""
  }

  /** The error log line `update` appends, if any. */
  function ErrorLines(station: string, error: Option<string>): (r: seq<string>)
    ensures |r| == (if HasError(error) then 1 else 0)
  {
    if HasError(error) then [station + ": " + error.value] else []
  }

  /** `data.update(new_data)` when `new_data` is non-empty. */
  function MergeData(data: map<string, Json>, newData: map<string, Json>): map<string, Json> {
    if newData == map[] then data else data + newData
  }

  /** The merge keeps every key, and a key present in both takes the new value. */
  lemma MergeDataWins(data: map<string, Json>, newData: map<string, Json>)
    ensures MergeData(data, newData).Keys == data.Keys + newData.Keys
    ensures forall k :: k in newData ==> MergeData(data, newData)[k] == newData[k]
    ensures forall k :: k in data && k !in newData ==> MergeData(data, newData)[k] == data[k]
  {
  }

  /** The sum of the costs recorded in a history. */
  function CostSum(h: seq<HistoryEntry>): real {
    if h == [] then 0.0 else CostSum(h[..|h| - 1]) + h[|h| - 1].cost
  }

  lemma CostSumAppend(h: seq<HistoryEntry>, e: HistoryEntry)
    ensures CostSum(h + [e]) == CostSum(h) + e.cost
  {
    assert (h + [e])[..|h|] == h;
  }

  /** The state of a pipeline context. */
  datatype Ledger = Ledger(data: map<string, Json>, budgetLimit: real, history: seq<HistoryEntry>,
                           totalCost: real, errors: seq<string>)
  {
    /** The money spent is the sum of the costs in the history. */
    predicate Balanced() {
      totalCost == CostSum(history)
    }

    /** `update`: merge the data, add the cost, record the station, log the error. */
    function Update(newData: map<string, Json>, station: string, cost: real,
                    status: StopCondition, error: Option<string>): Ledger
    {
      Ledger(MergeData(data, newData), budgetLimit, history + [HistoryEntry(station, cost, status, error)],
             totalCost + cost, errors + ErrorLines(station, error))
    }

    /** `available_fields`. */
    function AvailableFields(): (r: set<string>)
      ensures forall k :: k in r <==> k in data
    {
      data.Keys
    }

    /** `remaining_budget`: what is left of the budget, never below zero. */
    function RemainingBudget(): (r: real)
      ensures r >= 0.0 && r >= budgetLimit - totalCost
      ensures r == 0.0 || r == budgetLimit - totalCost
    {
      if budgetLimit - totalCost > 0.0 then budgetLimit - totalCost else 0.0
    }

    /** `can_afford`. */
    predicate CanAfford(estimate: real) {
      totalCost + estimate <= budgetLimit
    }
  }

  /** A new context: the given data and budget, nothing spent or recorded. */
  function Fresh(data: map<string, Json>, budgetLimit: real): (l: Ledger)
    ensures l.Balanced()
  {
    Ledger(data, budgetLimit, [], 0.0, [])
  }

  /**
   * `update` records exactly one history entry, adds exactly the cost,
   * grows the error log by one exactly when an error is passed, and keeps
   * the context balanced.
   */
  lemma UpdateAccounts(l: Ledger, newData: map<string, Json>, station: string, cost: real,
                       status: StopCondition, error: Option<string>)
    ensures var l' := l.Update(newData, station, cost, status, error);
            |l'.history| == |l.history| + 1 &&
            l'.history[|l.history|] == HistoryEntry(station, cost, status, error) &&
            l'.history[..|l.history|] == l.history &&
            l'.totalCost == l.totalCost + cost &&
            |l'.errors| == |l.errors| + (if HasError(error) then 1 else 0) &&
            l'.budgetLimit == l.budgetLimit &&
            (l.Balanced() ==> l'.Balanced())
  {
    CostSumAppend(l.history, HistoryEntry(station, cost, status, error));
    assert (l.history + [HistoryEntry(station, cost, status, error)])[..|l.history|] == l.history;
  }

  /** For a positive estimate, a station is affordable exactly when it fits in the remaining budget. */
  lemma AffordableWithinRemaining(l: Ledger, estimate: real)
    requires estimate > 0.0
    ensures l.CanAfford(estimate) <==> estimate <= l.RemainingBudget()
  {
  }

  /** Once the budget is spent, nothing with a positive cost is affordable. */
  lemma SpentBudget(l: Ledger, estimate: real)
    requires l.totalCost >= l.budgetLimit && estimate > 0.0
    ensures l.RemainingBudget() == 0.0 && !l.CanAfford(estimate)
  {
  }

  /** The context object the engine threads through the stations. */
  class Context {
    var data: map<string, Json>
    var budgetLimit: real
    var history: seq<HistoryEntry>
    var totalCost: real
    var errors: seq<string>

    function State(): Ledger
      reads this
    {
      Ledger(data, budgetLimit, history, totalCost, errors)
    }

    constructor(data: map<string, Json>, budgetLimit: real)
      ensures State() == Fresh(data, budgetLimit)
    {
      this.data := data;
      this.budgetLimit := budgetLimit;
      history := [];
      totalCost := 0.0;
      errors := [];
    }

    method Update(newData: map<string, Json>, station: string, cost: real,
                  status: StopCondition, error: Option<string>)
      modifies this
      ensures State() == old(State()).Update(newData, station, cost, status, error)
    {
      if newData != map[] {
        data := data + newData;
      }
      totalCost := totalCost + cost;
      history := history + [HistoryEntry(station, cost, status, error)];
      if error.Some? && error.value != "" {
        errors := errors + [station + ": " + error.value];
      }
    }

    /** The engine's own error append, used when a station raises. */
    method LogError(message: string)
      modifies this
      ensures State() == old(State()).(errors := old(errors) + [message])
    {
      errors := errors + [message];
    }
  }
}
