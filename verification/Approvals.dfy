/** The queue of held calls: one table of rows, any number of deciders and waiters on it. */
module Approvals {
  import opened Json

  datatype Status = Pending | Approved | Denied

  datatype Row = Row(tool: string, reason: string, requestedAt: nat, status: Status, decidedAt: Option<nat>)

  type Rows = map<string, Row>

  // The transactions that write: a request is inserted unless its row exists, a decision is made on a pending row.
  datatype Write =
      Insert(call: string, tool: string, reason: string, at: nat) | Settle(call: string, status: Status, at: nat)

  predicate IsDecision(status: Status) { status != Pending }

  function Applied(rows: Rows, w: Write): Rows
  {
    match w
    case Insert(call, tool, reason, at) =>
      if call in rows then rows else rows[call := Row(tool, reason, at, Pending, None)]
    case Settle(call, status, at) =>
      if IsDecision(status) && call in rows && rows[call].status == Pending then
        rows[call := rows[call].(status := status, decidedAt := Some(at))]
      else rows
  }

  function After(rows: Rows, writes: seq<Write>): Rows
  {
    if writes == [] then rows else Applied(After(rows, writes[..|writes| - 1]), writes[|writes| - 1])
  }

  lemma {:induction false} AfterSplits(rows: Rows, first: seq<Write>, second: seq<Write>)
    ensures After(rows, first + second) == After(After(rows, first), second)
  {
    var writes := first + second;
    if second == [] {
      assert writes == first;
    } else {
      assert writes[..|writes| - 1] == first + second[..|second| - 1];
      AfterSplits(rows, first, second[..|second| - 1]);
    }
  }

  // ---------------------------------------------------------------- what any history of transactions keeps

  predicate Decided(rows: Rows, call: string) { call in rows && rows[call].status != Pending }

  /**
   * What a row was when the history began stays, except that a pending row may be decided; a decided row stays whole.
   */
  predicate Evolves(before: Rows, now: Rows)
  {
    forall call | call in before ::
      && call in now
      && (Decided(before, call) ==> now[call] == before[call])
      && now[call].(status := Pending, decidedAt := None) == before[call].(status := Pending, decidedAt := None)
  }

  lemma {:induction false} HistoryEvolves(rows: Rows, writes: seq<Write>)
    ensures Evolves(rows, After(rows, writes))
  {
    if writes != [] { HistoryEvolves(rows, writes[..|writes| - 1]); }
  }

  /** The status of a row, as a value; a missing row has none. */
  function StatusOf(rows: Rows, call: string): Option<Status>
  {
    if call in rows then Some(rows[call].status) else None
  }

  /** How many transactions of the history moved the row of `call` out of pending or changed a decision. */
  function Decisions(rows: Rows, writes: seq<Write>, call: string): nat
  {
    if writes == [] then 0
    else
      var prefix := writes[..|writes| - 1];
      Decisions(rows, prefix, call)
      + if call in After(rows, prefix) && After(rows, writes)[call] != After(rows, prefix)[call] then 1 else 0
  }

  /** A row changes at most once, and exactly when it ends up decided without having been decided at the start. */
  lemma {:induction false} DecidedAtMostOnce(rows: Rows, writes: seq<Write>, call: string)
    ensures Decisions(rows, writes, call)
            == if !Decided(rows, call) && Decided(After(rows, writes), call) then 1 else 0
  {
    if writes != [] {
      var prefix := writes[..|writes| - 1];
      DecidedAtMostOnce(rows, prefix, call);
      HistoryEvolves(rows, prefix);
    }
  }

  /** The first decision on `call` in a history, once its row exists. */
  function FirstDecision(writes: seq<Write>, call: string, present: bool): Option<Status>
    decreases |writes|
  {
    if writes == [] then None
    else
      match writes[0]
      case Insert(c, _, _, _) => FirstDecision(writes[1..], call, present || c == call)
      case Settle(c, status, _) =>
        if present && c == call && IsDecision(status) then Some(status) else FirstDecision(writes[1..], call, present)
  }

  lemma AfterFirst(rows: Rows, writes: seq<Write>)
    requires writes != []
    ensures After(rows, writes) == After(Applied(rows, writes[0]), writes[1..])
  {
    assert writes == [writes[0]] + writes[1..];
    AfterSplits(rows, [writes[0]], writes[1..]);
    assert [writes[0]][..0] == [];
  }

  /** Whoever decides first decides for good: a later decision, approval or denial, changes nothing. */
  lemma {:induction false} FirstDecisionWins(rows: Rows, writes: seq<Write>, call: string)
    requires !Decided(rows, call)
    ensures var first := FirstDecision(writes, call, call in rows);
            if first.Some? then StatusOf(After(rows, writes), call) == first
            else !Decided(After(rows, writes), call)
    decreases |writes|
  {
    if writes != [] {
      AfterFirst(rows, writes);
      var next := Applied(rows, writes[0]);
      if Decided(next, call) {
        HistoryEvolves(next, writes[1..]);
      } else {
        FirstDecisionWins(next, writes[1..], call);
      }
    }
  }

  // ---------------------------------------------------------------- what a row says

  predicate Requests(w: Write, call: string) { w.Insert? && w.call == call }

  predicate Settles(w: Write, call: string) { w.Settle? && w.call == call && w.status != Pending }

  /** The request that made the row. */
  predicate IsFirstRequest(writes: seq<Write>, call: string, i: nat)
  {
    i < |writes| && Requests(writes[i], call) && forall k | 0 <= k < i :: !Requests(writes[k], call)
  }

  /** The decision that settled the row made by request `i`. */
  predicate IsFirstDecision(writes: seq<Write>, call: string, i: nat, j: nat)
  {
    i < j < |writes| && Settles(writes[j], call) && forall k | i < k < j :: !Settles(writes[k], call)
  }

  ghost predicate RowSays(writes: seq<Write>, call: string, i: nat, row: Row)
    requires i < |writes| && writes[i].Insert?
  {
    && row.tool == writes[i].tool && row.reason == writes[i].reason && row.requestedAt == writes[i].at
    && (forall j: nat | IsFirstDecision(writes, call, i, j) ::
          row.status == writes[j].status && row.decidedAt == Some(writes[j].at))
    && ((forall j | i < j < |writes| :: !Settles(writes[j], call)) ==> row.status == Pending && row.decidedAt == None)
  }

  ghost predicate SettledBehind(writes: seq<Write>, call: string, i: nat)
  {
    exists j | i < j < |writes| :: Settles(writes[j], call)
  }

  lemma FirstOfDecisions(writes: seq<Write>, call: string, i: nat) returns (j: nat)
    requires SettledBehind(writes, call, i)
    ensures IsFirstDecision(writes, call, i, j)
  {
    j := i + 1;
    while !Settles(writes[j], call)
      invariant i < j < |writes|
      invariant forall k | i < k < j :: !Settles(writes[k], call)
      decreases |writes| - j
    {
      j := j + 1;
    }
  }

  lemma SameDecisions(prefix: seq<Write>, w: Write, call: string, i: nat)
    ensures forall j: nat | j < |prefix| ::
              IsFirstDecision(prefix + [w], call, i, j) <==> IsFirstDecision(prefix, call, i, j)
    ensures IsFirstDecision(prefix + [w], call, i, |prefix|) <==>
            i < |prefix| && Settles(w, call) && !SettledBehind(prefix, call, i)
  {
    var writes := prefix + [w];
    assert writes[|prefix|] == w && forall k | 0 <= k < |prefix| :: writes[k] == prefix[k];
  }

  /** A later transaction leaves what a row says, unless it is the first decision on it. */
  lemma SaysStill(prefix: seq<Write>, w: Write, call: string, i: nat, row: Row)
    requires i < |prefix| && prefix[i].Insert? && RowSays(prefix, call, i, row)
    requires row.status == Pending ==> !Settles(w, call)
    ensures RowSays(prefix + [w], call, i, row)
  {
    hide Settles;
    var writes := prefix + [w];
    assert writes[|prefix|] == w && forall k | 0 <= k < |prefix| :: writes[k] == prefix[k];
    SameDecisions(prefix, w, call, i);
    if SettledBehind(prefix, call, i) {
      var j := FirstOfDecisions(prefix, call, i);
      assert Settles(writes[j], call);
    }
  }

  /** And that one it then says. */
  lemma SaysNow(prefix: seq<Write>, w: Write, call: string, i: nat, row: Row)
    requires i < |prefix| && prefix[i].Insert? && RowSays(prefix, call, i, row)
    requires row.status == Pending && Settles(w, call)
    ensures RowSays(prefix + [w], call, i, row.(status := w.status, decidedAt := Some(w.at)))
  {
    var writes := prefix + [w];
    assert writes[|prefix|] == w && forall k | 0 <= k < |prefix| :: writes[k] == prefix[k];
    SameDecisions(prefix, w, call, i);
    if SettledBehind(prefix, call, i) {
      var j := FirstOfDecisions(prefix, call, i);
    }
    assert Settles(writes[|prefix|], call);
  }

  ghost predicate TableIs(writes: seq<Write>, call: string, rows: Rows)
  {
    && (call in rows <==> exists i: nat :: IsFirstRequest(writes, call, i))
    && forall i: nat | IsFirstRequest(writes, call, i) :: call in rows && RowSays(writes, call, i, rows[call])
  }

  lemma SameRequests(prefix: seq<Write>, w: Write, call: string)
    ensures forall i: nat | i < |prefix| ::
              IsFirstRequest(prefix + [w], call, i) <==> IsFirstRequest(prefix, call, i)
    ensures IsFirstRequest(prefix + [w], call, |prefix|) <==>
            Requests(w, call) && forall k | 0 <= k < |prefix| :: !Requests(prefix[k], call)
  {
    var writes := prefix + [w];
    assert writes[|prefix|] == w && forall k | 0 <= k < |prefix| :: writes[k] == prefix[k];
  }

  lemma FirstOfRequests(writes: seq<Write>, call: string) returns (i: nat)
    requires exists k | 0 <= k < |writes| :: Requests(writes[k], call)
    ensures IsFirstRequest(writes, call, i)
  {
    i := 0;
    while !Requests(writes[i], call)
      invariant 0 <= i < |writes|
      invariant forall k | 0 <= k < i :: !Requests(writes[k], call)
      decreases |writes| - i
    {
      i := i + 1;
    }
  }

  lemma TableStep(prefix: seq<Write>, w: Write, call: string, rows: Rows)
    requires TableIs(prefix, call, rows)
    ensures TableIs(prefix + [w], call, Applied(rows, w))
  {
    hide RowSays, Requests, Settles;
    var now, writes := Applied(rows, w), prefix + [w];
    SameRequests(prefix, w, call);
    AppliedTo(rows, w, call);
    if call in rows {
      var i: nat :| IsFirstRequest(prefix, call, i);
      RequestInserts(prefix, call, i);
      if rows[call].status == Pending && Settles(w, call) {
        SaysNow(prefix, w, call, i, rows[call]);
      } else {
        SaysStill(prefix, w, call, i, rows[call]);
      }
      assert IsFirstRequest(writes, call, i);
      assert forall k: nat | IsFirstRequest(writes, call, k) :: k == i;
    } else {
      if exists k | 0 <= k < |prefix| :: Requests(prefix[k], call) {
        var i := FirstOfRequests(prefix, call);
      }
      if Requests(w, call) {
        NewRow(prefix, w, call, now[call]);
        assert IsFirstRequest(writes, call, |prefix|);
      }
      assert forall k: nat | IsFirstRequest(writes, call, k) :: k == |prefix|;
    }
  }

  lemma RequestInserts(writes: seq<Write>, call: string, i: nat)
    requires IsFirstRequest(writes, call, i)
    ensures writes[i].Insert?
  {}

  lemma AppliedTo(rows: Rows, w: Write, call: string)
    ensures var now := Applied(rows, w);
            && (call in now <==> call in rows || Requests(w, call))
            && (call in rows ==>
                  now[call] == if rows[call].status == Pending && Settles(w, call) then
                                 rows[call].(status := w.status, decidedAt := Some(w.at))
                               else rows[call])
            && (call !in rows && Requests(w, call) ==> now[call] == Row(w.tool, w.reason, w.at, Pending, None))
    ensures Requests(w, call) ==> w.Insert?
    ensures Settles(w, call) ==> w.Settle?
  {}

  lemma NewRow(prefix: seq<Write>, w: Write, call: string, row: Row)
    requires w.Insert? && row == Row(w.tool, w.reason, w.at, Pending, None)
    ensures RowSays(prefix + [w], call, |prefix|, row)
  {
    assert (prefix + [w])[|prefix|] == w;
  }

  /**
   * From an empty table a row exists exactly when its call was requested; it says what the first request said and when,
   * and what the first decision behind it was and when, or that there was none.
   */
  lemma {:induction false} RowIsItsHistory(writes: seq<Write>, call: string)
    ensures TableIs(writes, call, After(map[], writes))
  {
    hide TableIs, Applied;
    if writes == [] {
      EmptyTable(call);
    } else {
      var prefix, w := writes[..|writes| - 1], writes[|writes| - 1];
      RowIsItsHistory(prefix, call);
      TableStep(prefix, w, call, After(map[], prefix));
      assert prefix + [w] == writes;
    }
  }

  lemma EmptyTable(call: string)
    ensures TableIs([], call, map[])
  {}

  // ---------------------------------------------------------------- the queue

  datatype DecideResult = Made(row: Row) | InvalidStatus | NotFound | Conflict(current: Status)

  // What the world does during one `wait`: others' transactions before each of its own, and how long each sleep lasts
  // beyond the polling interval.
  datatype World = World(others: nat -> seq<Write>, delay: nat -> nat)

  /** What others commit before the first `n` transactions. */
  function Interleaved(w: World, n: nat): seq<Write>
  {
    if n == 0 then [] else Interleaved(w, n - 1) + w.others(n - 1)
  }

  class SQLiteApprovalQueue {
    const timeout: nat
    const poll: nat
    var rows: Rows
    var now: nat
    ghost var history: seq<Write>

    constructor (timeout: nat, poll: nat)
      requires timeout > 0 && poll > 0
      ensures this.timeout == timeout && this.poll == poll
      ensures Valid() && history == []
    {
      this.timeout, this.poll := timeout, poll;
      rows, now, history := map[], 0, [];
    }

    ghost predicate Valid()
      reads this
    {
      poll > 0 && rows == After(map[], history)
    }

    // Transactions of other processes, deciders and waiters alike.
    method OthersCommit(writes: seq<Write>)
      requires Valid()
      modifies this`rows, this`history
      ensures Valid() && history == old(history) + writes
      ensures rows == After(old(rows), writes) && Evolves(old(rows), rows)
    {
      hide After, Evolves;
      HistoryEvolves(rows, writes);
      AfterSplits(map[], history, writes);
      rows := After(rows, writes);
      history := history + writes;
    }

    method Commit(w: Write)
      requires Valid()
      modifies this`rows, this`history
      ensures Valid() && history == old(history) + [w]
      ensures rows == Applied(old(rows), w)
    {
      rows := Applied(rows, w);
      history := history + [w];
      assert history[..|history| - 1] == old(history);
    }

    method Get(call: string) returns (row: Option<Row>)
      ensures row == if call in rows then Some(rows[call]) else None
    {
      row := if call in rows then Some(rows[call]) else None;
    }

    /** The row of a held call: its own, or the one an earlier request with the same id left. */
    method Request(call: string, tool: string, reason: string, between: seq<Write>) returns (row: Row)
      requires Valid()
      modifies this`rows, this`history
      ensures Valid() && history == old(history) + [Insert(call, tool, reason, now)] + between
      ensures rows == After(Applied(old(rows), Insert(call, tool, reason, now)), between)
      ensures call in rows && row == rows[call]
      ensures call in old(rows) ==> row.tool == old(rows)[call].tool && row.reason == old(rows)[call].reason
    {
      Commit(Insert(call, tool, reason, now));
      OthersCommit(between);
      var found := Get(call);
      row := found.value;
    }

    /**
     * One decision: made, already made the same way, or refused; then the row is read back, whatever others did
     * meanwhile.
     */
    method Decide(call: string, status: Status, between: seq<Write>) returns (result: DecideResult)
      requires Valid()
      modifies this`rows, this`history
      ensures Valid() && old(history) <= history
      ensures result.InvalidStatus? <==> !IsDecision(status)
      ensures result.NotFound? <==> IsDecision(status) && call !in old(rows)
      ensures result.Conflict? <==> IsDecision(status) && Decided(old(rows), call) && old(rows)[call].status != status
      ensures result.Conflict? ==> result.current == old(rows)[call].status
      ensures result.Made? ==> call in rows && result.row == rows[call] && result.row.status == status
      ensures rows == if result.Made? then After(Applied(old(rows), Settle(call, status, now)), between) else old(rows)
    {
      if !IsDecision(status) {
        return InvalidStatus;
      }
      if call !in rows {
        return NotFound;
      }
      var current := rows[call].status;
      if current == status {
        assert Applied(rows, Settle(call, status, now)) == rows;
      } else if current != Pending {
        return Conflict(current);
      } else {
        Commit(Settle(call, status, now));
      }
      OthersCommit(between);
      var found := Get(call);
      return Made(found.value);
    }

    /**
     * Waiting for a decision, with other processes committing whatever they like before each of its own transactions.
     * It always ends, with the row decided for good, and reports an approval exactly when the row, and so the first
     * decision on the call, says so. Before the timeout it decides nothing itself.
     */
    method Wait(call: string, tool: string, reason: string, w: World) returns (approved: bool)
      requires Valid()
      modifies this
      ensures Valid() && old(history) <= history
      ensures Decided(rows, call) && Evolves(old(rows), rows)
      ensures approved <==> rows[call].status == Approved
      ensures approved <==> FirstDecision(history, call, false) == Some(Approved)
      ensures now < old(now) + timeout ==>
                exists n: nat :: history == old(history) + [Insert(call, tool, reason, old(now))] + Interleaved(w, n)
    {
      hide After, Applied, Evolves, Interleaved, FirstDecision;
      ghost var before, start := rows, history;
      ghost var asked := Insert(call, tool, reason, now);
      var requested := Request(call, tool, reason, w.others(0));
      StepEvolves(before, asked, w.others(0));
      ghost var opening := start + [asked];
      var deadline := now + timeout;
      var n: nat := 1;
      InterleavedStep(w, 0, opening);
      while now < deadline
        invariant Valid() && history == opening + Interleaved(w, n)
        invariant call in rows && Evolves(before, rows)
        decreases deadline - now
      {
        ghost var r := rows;
        InterleavedStep(w, n, opening);
        OthersCommit(w.others(n));
        EvolvesOn(before, r, rows, call);
        n := n + 1;
        var record := Get(call);
        if record.value.status != Pending {
          StatusIsFirst(history, call);
          return record.value.status == Approved;
        }
        now := now + poll + w.delay(n);
      }
      ghost var held := rows;
      OthersCommit(w.others(n));
      EvolvesOn(before, held, rows, call);
      held := rows;
      StepEvolves(rows, Settle(call, Denied, now), w.others(n + 1));
      var denial := Decide(call, Denied, w.others(n + 1));
      DecidedAfter(held, Settle(call, Denied, now), w.others(n + 1));
      EvolvesSame(held);
      EvolvesOn(before, held, rows, call);
      held := rows;
      OthersCommit(w.others(n + 2));
      EvolvesOn(before, held, rows, call);
      var record := Get(call);
      StatusIsFirst(history, call);
      return record.value.status == Approved;
    }
  }

  lemma EvolvesSame(rows: Rows)
    ensures Evolves(rows, rows)
  {}

  lemma EvolvesOn(a: Rows, b: Rows, c: Rows, call: string)
    requires Evolves(a, b) && Evolves(b, c)
    ensures Evolves(a, c)
    ensures call in b ==> call in c
    ensures Decided(b, call) ==> Decided(c, call) && c[call] == b[call]
  {}

  lemma InterleavedStep(w: World, n: nat, opening: seq<Write>)
    ensures Interleaved(w, 0) == []
    ensures Interleaved(w, 1) == w.others(0)
    ensures opening + Interleaved(w, n + 1) == (opening + Interleaved(w, n)) + w.others(n)
  {}

  /** Trying to decide a row leaves it decided, one way or the other. */
  lemma DecidedAfter(rows: Rows, w: Write, writes: seq<Write>)
    requires w.Settle? && IsDecision(w.status) && w.call in rows
    ensures Decided(After(Applied(rows, w), writes), w.call)
  {
    HistoryEvolves(Applied(rows, w), writes);
  }

  lemma StatusIsFirst(history: seq<Write>, call: string)
    requires Decided(After(map[], history), call)
    ensures FirstDecision(history, call, false) == Some(After(map[], history)[call].status)
  {
    FirstDecisionWins(map[], history, call);
  }

  lemma StepEvolves(rows: Rows, w: Write, writes: seq<Write>)
    ensures Evolves(rows, After(Applied(rows, w), writes))
  {
    HistoryEvolves(Applied(rows, w), writes);
  }

  /** Any two waiters on one call, ending at whatever moments of a history, are told the same. */
  lemma WaitersAgree(history: seq<Write>, call: string, m: nat, n: nat)
    requires m <= n <= |history|
    requires Decided(After(map[], history[..m]), call)
    ensures Decided(After(map[], history[..n]), call)
    ensures After(map[], history[..m])[call] == After(map[], history[..n])[call]
    ensures FirstDecision(history[..m], call, false) == Some(After(map[], history[..n])[call].status)
  {
    assert history[..n] == history[..m] + history[m..n];
    AfterSplits(map[], history[..m], history[m..n]);
    HistoryEvolves(After(map[], history[..m]), history[m..n]);
    FirstDecisionWins(map[], history[..m], call);
  }
}
