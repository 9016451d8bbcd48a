/** The two stores that hold the shared usage: one in memory, one in SQLite tables. */
module StateStores {
  import opened Json
  import opened Decimals
  import opened Policies

  datatype StateResult = StateResult(decision: Decision, usage: Usage)

  /** The answer of one reservation attempt against a usage, whichever store runs it. */
  function Outcome(policy: Policy, call: ToolCall, approved: bool, usage: Usage): StateResult
  {
    var decision := Evaluate(policy, call, usage);
    StateResult(decision, if decision.ReservesUsage(approved) then usage.Recorded(call) else usage)
  }

  /** The mutable counters that a store keeps. */
  class UsageCounters {
    var toolCalls: nat
    var cost: Decimal
    var byTool: map<string, nat>
    var byFingerprint: map<Fingerprint, nat>

    constructor ()
      ensures View() == NO_USAGE
    {
      toolCalls, cost, byTool, byFingerprint := 0, ZERO, map[], map[];
    }

    function View(): Usage
      reads this
    {
      Usage(toolCalls, cost, byTool, byFingerprint)
    }

    method Record(call: ToolCall)
      modifies this
      ensures View() == old(View()).Recorded(call)
    {
      hide Plus, Bounded;
      toolCalls := toolCalls + 1;
      cost := Plus(cost, call.cost);
      byTool := byTool[call.name := if call.name in byTool then byTool[call.name] + 1 else 1];
      var fingerprint := call.Fingerprint();
      byFingerprint := byFingerprint[fingerprint := if fingerprint in byFingerprint then byFingerprint[fingerprint] + 1
          else 1];
    }
  }

  class MemoryStateStore {
    const counters: UsageCounters

    constructor ()
      ensures fresh(counters) && counters.View() == NO_USAGE
    {
      counters := new UsageCounters();
    }

    // Runs under the store's lock, so it is one atomic step for every caller.
    method EvaluateAndReserve(policy: Policy, call: ToolCall, approved: bool) returns (result: StateResult)
      modifies counters
      ensures result == Outcome(policy, call, approved, old(counters.View()))
      ensures counters.View() == result.usage
    {
      var decision := Evaluate(policy, call, counters.View());
      if decision.ReservesUsage(approved) {
        counters.Record(call);
      }
      result := StateResult(decision, counters.View());
    }
  }

  // ---------------------------------------------------------------- SQLite

  // A column whose declared type SQLite does not enforce.
  datatype Cell = Integer(n: int) | NotInteger
  datatype CostText = Amount(cost: Decimal) | Unreadable

  datatype Tables = Tables(
    run: Option<(Cell, CostText)>,
    tools: map<string, Cell>,
    fingerprints: map<Fingerprint, Cell>)

  predicate IsCount(cell: Cell) { cell.Integer? && cell.n >= 0 }

  predicate AllCounts<K>(column: map<K, Cell>) { forall k | k in column :: IsCount(column[k]) }

  function Counts<K>(column: map<K, Cell>): map<K, nat>
    requires AllCounts(column)
  {
    map k | k in column :: column[k].n
  }

  /** Rebuilding the usage from the tables; anything malformed refuses instead of guessing. */
  function Load(t: Tables): Option<Usage>
  {
    if t.run.None? || !IsCount(t.run.value.0) || t.run.value.1.Unreadable? then None
    else if !AllCounts(t.tools) || !AllCounts(t.fingerprints) then None
    else Some(Usage(t.run.value.0.n, t.run.value.1.cost, Counts(t.tools), Counts(t.fingerprints)))
  }

  function Upserted<K>(column: map<K, Cell>, key: K): map<K, Cell>
  {
    if key !in column then column[key := Integer(1)]
    else if column[key].Integer? then column[key := Integer(column[key].n + 1)]
    else column
  }

  /** The tables after the three statements of one reservation. */
  function Written(t: Tables, usage: Usage, call: ToolCall): Tables
  {
    Tables(
      if t.run.Some? then Some((Integer(usage.toolCalls), Amount(usage.cost))) else None,
      Upserted(t.tools, call.name),
      Upserted(t.fingerprints, call.Fingerprint()))
  }

  /** Writing a reservation into tables and loading them back is recording it in memory. */
  lemma WrittenLoadsBack(t: Tables, call: ToolCall)
    requires Load(t).Some?
    ensures Load(Written(t, Load(t).value.Recorded(call), call)) == Some(Load(t).value.Recorded(call))
  {
    hide Plus, Bounded, Upserted, Counts, AllCounts;
    UpsertedCounts(t.tools, call.name);
    UpsertedCounts(t.fingerprints, call.Fingerprint());
  }

  lemma UpsertedCounts<K>(column: map<K, Cell>, key: K)
    requires AllCounts(column)
    ensures AllCounts(Upserted(column, key))
    ensures var counts := Counts(column);
            Counts(Upserted(column, key)) == counts[key := (if key in counts then counts[key] else 0) + 1]
  {}

  lemma LoadedRunExists(t: Tables)
    ensures Load(t).Some? ==> t.run.Some?
  {}

  function CellsOf<K>(counts: map<K, nat>): map<K, Cell> { map k | k in counts :: Integer(counts[k]) }

  /** The tables that hold a usage. */
  function StoredAs(u: Usage): Tables
  {
    Tables(Some((Integer(u.toolCalls), Amount(u.cost))), CellsOf(u.byTool), CellsOf(u.byFingerprint))
  }

  lemma CountsOfCells<K>(column: map<K, Cell>, counts: map<K, nat>)
    ensures column == CellsOf(counts) <==> AllCounts(column) && Counts(column) == counts
  {
    if AllCounts(column) && Counts(column) == counts {
      assert column.Keys == Counts(column).Keys;
      forall k | k in column ensures column[k] == CellsOf(counts)[k] {
        assert Counts(column)[k] == column[k].n;
      }
    }
    if column == CellsOf(counts) {
      assert Counts(column) == counts;
    }
  }

  /** Tables load to a usage exactly when they hold that usage; whatever else they hold is refused. */
  lemma LoadsWhatIsStored(t: Tables, u: Usage)
    ensures Load(t) == Some(u) <==> t == StoredAs(u)
  {
    hide CellsOf, Counts, AllCounts;
    CountsOfCells(t.tools, u.byTool);
    CountsOfCells(t.fingerprints, u.byFingerprint);
  }

  // The statements of one transaction, in order; any of them may raise.
  datatype Statement = Begin | Select | UpdateRun | UpsertTool | UpsertFingerprint | Commit

  class SQLiteStateStore {
    var tables: Tables

    constructor ()
      ensures Load(tables) == Some(NO_USAGE)
    {
      tables := Tables(Some((Integer(0), Amount(ZERO))), map[], map[]);
    }

    // The write lock of the transaction makes the whole call one step; `failing` is the statement that raises.
    method EvaluateAndReserve(policy: Policy, call: ToolCall, approved: bool, failing: Option<Statement>)
      returns (result: Option<StateResult>)
      modifies this
      ensures (tables, result) == Transaction(old(tables), Attempt(policy, call, approved, failing))
    {
      hide Load, Evaluate, Plus, Upserted, Bounded;
      LoadedRunExists(tables);
      var before := tables;
      if failing == Some(Begin) || failing == Some(Select) {
        return None;
      }
      var usage := Load(tables);
      if usage.None? {
        return None;
      }
      var decision := Evaluate(policy, call, usage.value);
      var now := usage.value;
      if decision.ReservesUsage(approved) {
        now := now.Recorded(call);
        if failing == Some(UpdateRun) {
          tables := before;
          return None;
        }
        tables := tables.(run := Some((Integer(now.toolCalls), Amount(now.cost))));
        if failing == Some(UpsertTool) {
          tables := before;
          return None;
        }
        tables := tables.(tools := Upserted(tables.tools, call.name));
        if failing == Some(UpsertFingerprint) {
          tables := before;
          return None;
        }
        tables := tables.(fingerprints := Upserted(tables.fingerprints, call.Fingerprint()));
      }
      if failing == Some(Commit) {
        tables := before;
        return None;
      }
      assert tables == if decision.ReservesUsage(approved) then Written(before, now, call) else before;
      assert failing.Some? ==>
               failing.value.UpdateRun? || failing.value.UpsertTool? || failing.value.UpsertFingerprint?;
      return Some(StateResult(decision, now));
    }
  }

  datatype Attempt = Attempt(policy: Policy, call: ToolCall, approved: bool, failing: Option<Statement>)

  /** Whether an attempt reaches its commit, given what the tables load to. */
  predicate Commits(t: Tables, a: Attempt)
  {
    && Load(t).Some?
    && (a.failing.None?
        || (a.failing.value !in {Begin, Select, Commit}
            && !Evaluate(a.policy, a.call, Load(t).value).ReservesUsage(a.approved)))
  }

  function Transaction(t: Tables, a: Attempt): (Tables, Option<StateResult>)
  {
    if !Commits(t, a) then (t, None)
    else
      var r := Outcome(a.policy, a.call, a.approved, Load(t).value);
      (if r.decision.ReservesUsage(a.approved) then Written(t, r.usage, a.call) else t, Some(r))
  }

  /** No statement that the attempt executes on a usage fails: one that reserves nothing executes no update. */
  predicate RunsThrough(a: Attempt, u: Usage)
  {
    || a.failing == None
    || (!Evaluate(a.policy, a.call, u).ReservesUsage(a.approved)
        && (a.failing == Some(UpdateRun) || a.failing == Some(UpsertTool) || a.failing == Some(UpsertFingerprint)))
  }

  /** An attempt is answered exactly when the tables hold a usage and it runs through on it. */
  lemma AnsweredIff(t: Tables, a: Attempt)
    ensures Transaction(t, a).1.Some? <==> exists u :: t == StoredAs(u) && RunsThrough(a, u)
  {
    hide Load, StoredAs, Evaluate, Written;
    if Load(t).Some? { LoadsWhatIsStored(t, Load(t).value); }
    if u :| t == StoredAs(u) && RunsThrough(a, u) {
      LoadsWhatIsStored(t, u);
      assert Commits(t, a);
    }
    if Commits(t, a) {
      var u := Load(t).value;
      assert a.failing.Some? ==>
               a.failing.value.UpdateRun? || a.failing.value.UpsertTool? || a.failing.value.UpsertFingerprint?;
      assert t == StoredAs(u) && RunsThrough(a, u);
    }
  }

  /** A committed transaction leaves tables that load back to the usage it returned. */
  lemma TransactionRefines(t: Tables, a: Attempt)
    requires Commits(t, a)
    ensures Transaction(t, a).1 == Some(Outcome(a.policy, a.call, a.approved, Load(t).value))
    ensures Load(Transaction(t, a).0) == Some(Transaction(t, a).1.value.usage)
  {
    WrittenLoadsBack(t, a.call);
  }

  // ---------------------------------------------------------------- histories

  /** The answers of a serialized history of attempts, by any number of processes, on one database. */
  function SqlHistory(t: Tables, attempts: seq<Attempt>): (Tables, seq<Option<StateResult>>)
    decreases |attempts|
  {
    if attempts == [] then (t, [])
    else
      var (t', r) := Transaction(t, attempts[0]);
      var (t'', rest) := SqlHistory(t', attempts[1..]);
      (t'', [r] + rest)
  }

  /** The answers of one memory store to the attempts that were answered; the others never reach it. */
  function MemoryHistory(usage: Usage, attempts: seq<Attempt>, answered: seq<bool>): (Usage, seq<Option<StateResult>>)
    requires |attempts| == |answered|
    decreases |attempts|
  {
    if attempts == [] then (usage, [])
    else
      var r := Outcome(attempts[0].policy, attempts[0].call, attempts[0].approved, usage);
      var (usage', rest) := MemoryHistory(if answered[0] then r.usage else usage, attempts[1..], answered[1..]);
      (usage', [if answered[0] then Some(r) else None] + rest)
  }

  function AnsweredOf(results: seq<Option<StateResult>>): seq<bool>
  {
    seq(|results|, i requires 0 <= i < |results| => results[i].Some?)
  }

  /**
   * Every serialized history on the tables gives exactly the answers, and ends in exactly the usage, of one memory
   * store.
   */
  lemma {:induction false} SqlRefinesMemory(t: Tables, attempts: seq<Attempt>)
    requires Load(t).Some?
    ensures var (t', results) := SqlHistory(t, attempts);
            && |results| == |attempts|
            && Load(t').Some?
            && MemoryHistory(Load(t).value, attempts, AnsweredOf(results)) == (Load(t').value, results)
    decreases |attempts|
  {
    if attempts != [] {
      hide Load, Transaction, Outcome, Commits;
      var a := attempts[0];
      TransactionAnswers(t, a);
      var (t', r) := Transaction(t, a);
      SqlRefinesMemory(t', attempts[1..]);
      var (t'', rest) := SqlHistory(t', attempts[1..]);
      assert SqlHistory(t, attempts) == (t'', [r] + rest);
      var answered := AnsweredOf([r] + rest);
      assert answered[0] == r.Some? && answered[1..] == AnsweredOf(rest);
      assert MemoryHistory(Load(t').value, attempts[1..], answered[1..]) == (Load(t'').value, rest);
    }
  }

  /** One attempt: the tables always load, and change only as an answered attempt says. */
  lemma TransactionAnswers(t: Tables, a: Attempt)
    requires Load(t).Some?
    ensures var ((t', r), want) := (Transaction(t, a), Outcome(a.policy, a.call, a.approved, Load(t).value));
            && Load(t').Some?
            && (if r.Some? then r.value == want && Load(t').value == want.usage else Load(t') == Load(t))
  {
    hide Load, Outcome;
    if Commits(t, a) { TransactionRefines(t, a); }
  }
}
