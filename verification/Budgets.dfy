/** What the budget checks guarantee about the counters of every run, whatever calls are reserved in whatever order. */
module Budgets {
  import opened Json
  import opened Decimals
  import opened Policies

  /** The sum of all the counts in a table. */
  ghost function Total<K>(counts: map<K, nat>): nat
  {
    if counts == map[] then 0 else var k :| k in counts; counts[k] + Total(counts - {k})
  }

  lemma {:induction false} TotalRemove<K>(counts: map<K, nat>, key: K)
    requires key in counts
    ensures Total(counts) == counts[key] + Total(counts - {key})
  {
    var k :| k in counts && Total(counts) == counts[k] + Total(counts - {k});
    if k != key {
      TotalRemove(counts - {k}, key);
      TotalRemove(counts - {key}, k);
      assert counts - {k} - {key} == counts - {key} - {k};
    }
  }

  lemma TotalIncrement<K>(counts: map<K, nat>, key: K, before: nat)
    requires before == if key in counts then counts[key] else 0
    ensures Total(counts[key := before + 1]) == Total(counts) + 1
  {
    TotalRemove(counts[key := before + 1], key);
    if key in counts {
      TotalRemove(counts, key);
      assert counts[key := before + 1] - {key} == counts - {key};
    } else {
      assert counts[key := before + 1] - {key} == counts;
    }
  }

  /** Both count tables add up to the number of calls. */
  ghost predicate Consistent(u: Usage)
  {
    Total(u.byTool) == u.toolCalls && Total(u.byFingerprint) == u.toolCalls
  }

  ghost predicate WithinCaps(policy: Policy, u: Usage)
  {
    var b := policy.budget;
    && (b.maxCalls.Some? ==> u.toolCalls <= b.maxCalls.value)
    && (b.maxCallsPerTool.Some? ==> forall tool :: u.OfTool(tool) <= b.maxCallsPerTool.value)
    && (b.maxIdenticalCalls.Some? ==> forall f :: u.OfFingerprint(f) <= b.maxIdenticalCalls.value)
    && (b.maxCost.Some? ==> !Exceeds(u.cost, b.maxCost.value))
  }

  lemma NoUsageIsWithinCaps(policy: Policy)
    ensures WithinCaps(policy, NO_USAGE) && Consistent(NO_USAGE)
  {}

  /** One reservation after a passed budget check keeps every cap and keeps the tables adding up. */
  lemma RecordKeepsCaps(policy: Policy, u: Usage, call: ToolCall)
    requires WithinCaps(policy, u) && Consistent(u)
    requires BudgetDecision(policy, call, u) == None
    ensures WithinCaps(policy, u.Recorded(call)) && Consistent(u.Recorded(call))
  {
    hide BudgetDecision, WithinCaps, Consistent;
    RecordAddsUp(u, call);
    CheckedIsCapped(policy, u, call);
  }

  lemma RecordAddsUp(u: Usage, call: ToolCall)
    requires Consistent(u)
    ensures Consistent(u.Recorded(call))
  {
    hide Plus, Total;
    TotalIncrement(u.byTool, call.name, u.OfTool(call.name));
    TotalIncrement(u.byFingerprint, call.Fingerprint(), u.OfFingerprint(call.Fingerprint()));
  }

  lemma CheckedIsCapped(policy: Policy, u: Usage, call: ToolCall)
    requires WithinCaps(policy, u) && BudgetDecision(policy, call, u) == None
    ensures WithinCaps(policy, u.Recorded(call))
  {
    hide Plus, Exceeds, Bounded;
    var v, mine := u.Recorded(call), call.Fingerprint();
    assert forall tool :: v.OfTool(tool) == if tool == call.name then u.OfTool(tool) + 1 else u.OfTool(tool);
    assert forall f :: v.OfFingerprint(f) == if f == mine then u.OfFingerprint(f) + 1 else u.OfFingerprint(f);
  }

  /**
   * The check blocks a call exactly when reserving it would pass a cap: the call is the first over some limit, or its
   * cost is. Nothing within the caps is blocked.
   */
  lemma CheckIsExact(policy: Policy, u: Usage, call: ToolCall)
    requires WithinCaps(policy, u)
    ensures BudgetDecision(policy, call, u) == None <==> WithinCaps(policy, u.Recorded(call))
  {
    hide Plus, Exceeds, Bounded;
    var v, mine := u.Recorded(call), call.Fingerprint();
    assert v.OfTool(call.name) == u.OfTool(call.name) + 1 && v.OfFingerprint(mine) == u.OfFingerprint(mine) + 1;
    if BudgetDecision(policy, call, u) == None { CheckedIsCapped(policy, u, call); }
  }

  /** The usage after reserving the calls in order, from `base`. */
  function Replay(base: Usage, calls: seq<ToolCall>): Usage
  {
    if calls == [] then base else Replay(base, calls[..|calls| - 1]).Recorded(calls[|calls| - 1])
  }

  /** Every call passed the budget check against the usage it was reserved on. */
  ghost predicate Admitted(policy: Policy, base: Usage, calls: seq<ToolCall>)
  {
    forall i | 0 <= i < |calls| :: BudgetDecision(policy, calls[i], Replay(base, calls[..i])) == None
  }

  lemma AdmittedPrefix(policy: Policy, base: Usage, calls: seq<ToolCall>, n: nat)
    requires Admitted(policy, base, calls) && n <= |calls|
    ensures Admitted(policy, base, calls[..n])
  {
    forall i | 0 <= i < n ensures BudgetDecision(policy, calls[..n][i], Replay(base, calls[..n][..i])) == None {
      assert calls[..n][..i] == calls[..i];
    }
  }

  /** Every reachable usage keeps every cap, and its tables add up, if the usage the run started from did. */
  lemma {:induction false} RunKeepsCaps(policy: Policy, base: Usage, calls: seq<ToolCall>)
    requires WithinCaps(policy, base) && Consistent(base)
    requires Admitted(policy, base, calls)
    ensures WithinCaps(policy, Replay(base, calls)) && Consistent(Replay(base, calls))
  {
    if calls != [] {
      var n := |calls| - 1;
      AdmittedPrefix(policy, base, calls, n);
      RunKeepsCaps(policy, base, calls[..n]);
      RecordKeepsCaps(policy, Replay(base, calls[..n]), calls[n]);
    }
  }

  // ---------------------------------------------------------------- the counts of a run

  function NamesOf(calls: seq<ToolCall>): seq<string>
  {
    seq(|calls|, i requires 0 <= i < |calls| => calls[i].name)
  }

  function FingerprintsOf(calls: seq<ToolCall>): seq<Fingerprint>
  {
    seq(|calls|, i requires 0 <= i < |calls| => calls[i].Fingerprint())
  }

  lemma RecordCounts(u: Usage, call: ToolCall, tool: string, f: Fingerprint)
    ensures var v := u.Recorded(call);
            && v.toolCalls == u.toolCalls + 1
            && v.OfTool(tool) == u.OfTool(tool) + (if call.name == tool then 1 else 0)
            && v.OfFingerprint(f) == u.OfFingerprint(f) + (if call.Fingerprint() == f then 1 else 0)
  {
    hide Plus, Bounded;
  }

  lemma OneMoreCall(calls: seq<ToolCall>)
    requires calls != []
    ensures var n := |calls| - 1;
            && NamesOf(calls) == NamesOf(calls[..n]) + [calls[n].name]
            && FingerprintsOf(calls) == FingerprintsOf(calls[..n]) + [calls[n].Fingerprint()]
  {
    hide ToolCall.Fingerprint;
  }

  /** From zero usage the counters hold how many calls were reserved, on each tool and under each fingerprint. */
  lemma {:induction false} CountersCount(calls: seq<ToolCall>, tool: string, f: Fingerprint)
    ensures var u := Replay(NO_USAGE, calls);
            && u.toolCalls == |calls|
            && u.OfTool(tool) == multiset(NamesOf(calls))[tool]
            && u.OfFingerprint(f) == multiset(FingerprintsOf(calls))[f]
  {
    hide Usage.Recorded, Usage.OfTool, Usage.OfFingerprint, ToolCall.Fingerprint, NamesOf, FingerprintsOf;
    if calls == [] {
      NothingCounted(tool, f);
    } else {
      var n := |calls| - 1;
      CountersCount(calls[..n], tool, f);
      RecordCounts(Replay(NO_USAGE, calls[..n]), calls[n], tool, f);
      OneMoreCall(calls);
    }
  }

  lemma NothingCounted(tool: string, f: Fingerprint)
    ensures NO_USAGE.toolCalls == NO_USAGE.OfTool(tool) == NO_USAGE.OfFingerprint(f) == 0
    ensures NamesOf([]) == [] && FingerprintsOf([]) == []
  {}

  // ---------------------------------------------------------------- the rounded cost counter

  predicate CostsAbove(calls: seq<ToolCall>, e: int)
  {
    forall i | 0 <= i < |calls| :: e <= calls[i].cost.exp
  }

  /** The sum of the costs as exact arithmetic has it, counted in units of 10^e. */
  function ExactCost(calls: seq<ToolCall>, e: int): nat
    requires CostsAbove(calls, e)
  {
    if calls == [] then 0
    else
      var n := |calls| - 1;
      assert calls[n].cost.exp >= e;
      ExactCost(calls[..n], e) + Units(calls[n].cost, e)
  }

  /** Twice the smallest 28-digit coefficient: rounding moves an amount by at most one part in this many. */
  function Precision2(): nat { 2 * Pow10(PRECISION - 1) }

  /** One addition, in any unit that both amounts are multiples of: the error against the exact sum, either way. */
  lemma PlusError(a: Decimal, b: Decimal, e: int)
    requires e <= a.exp && e <= b.exp
    ensures e <= Plus(a, b).exp
    ensures Precision2() * Distance(Sum(a, b, e), Units(Plus(a, b), e)) <= Units(Plus(a, b), e)
  {
    hide Rounded, Pow10, Units, Precision2;
    var m := Min(a.exp, b.exp);
    var r := Plus(a, b);
    TwicePrecision();
    RoundedError(Sum(a, b, m), m);
    SumRescale(a, b, m, e);
    UnitsRescale(r, m, e);
    ScaledDistance(Sum(a, b, m), Units(r, m), Pow10(m - e));
    Associative(Precision2(), Distance(Sum(a, b, m), Units(r, m)), Pow10(m - e));
    Scale(Precision2() * Distance(Sum(a, b, m), Units(r, m)), Units(r, m), Pow10(m - e));
  }

  lemma TwicePrecision()
    ensures Precision2() == 2 * Pow10(PRECISION - 1)
  {}

  lemma Scale(a: nat, b: nat, p: nat)
    requires a <= b
    ensures a * p <= b * p
  {}

  /** The counter after each reservation of a run, all added up, in units of 10^e. */
  function CounterSum(calls: seq<ToolCall>, e: int): nat
    requires CostsAbove(calls, e) && e <= 0
  {
    if calls == [] then 0
    else
      StoredExponent(calls, e);
      CounterSum(calls[..|calls| - 1], e) + Units(Replay(NO_USAGE, calls).cost, e)
  }

  lemma {:induction false} StoredExponent(calls: seq<ToolCall>, e: int)
    requires CostsAbove(calls, e) && e <= 0
    ensures Replay(NO_USAGE, calls).cost.exp >= e
  {
    if calls != [] {
      var n := |calls| - 1;
      StoredExponent(calls[..n], e);
      PlusError(Replay(NO_USAGE, calls[..n]).cost, calls[n].cost, e);
    }
  }

  lemma LastCall(calls: seq<ToolCall>, e: int)
    requires CostsAbove(calls, e) && calls != [] && e <= 0
    ensures var n := |calls| - 1;
            && CostsAbove(calls[..n], e) && e <= calls[n].cost.exp
            && e <= Replay(NO_USAGE, calls[..n]).cost.exp && e <= Replay(NO_USAGE, calls).cost.exp
            && ExactCost(calls, e) == ExactCost(calls[..n], e) + Units(calls[n].cost, e)
            && CounterSum(calls, e) == CounterSum(calls[..n], e) + Units(Replay(NO_USAGE, calls).cost, e)
            && Replay(NO_USAGE, calls).cost == Plus(Replay(NO_USAGE, calls[..n]).cost, calls[n].cost)
  {
    hide Plus, Units;
    StoredExponent(calls, e);
    StoredExponent(calls[..|calls| - 1], e);
  }

  lemma NothingSpent(calls: seq<ToolCall>, e: int)
    requires calls == [] && e <= 0
    ensures CostsAbove(calls, e) && ExactCost(calls, e) == 0 && CounterSum(calls, e) == 0
    ensures e <= Replay(NO_USAGE, calls).cost.exp && Units(Replay(NO_USAGE, calls).cost, e) == 0
  {}

  /**
   * In every run from zero usage, capped or not, the stored cost differs from the exact sum by at most one part in 2 *
   * 10^27 of the values the counter has gone through.
   */
  lemma {:induction false} StoredTracksExact(calls: seq<ToolCall>, e: int)
    requires CostsAbove(calls, e) && e <= 0
    ensures e <= Replay(NO_USAGE, calls).cost.exp
    ensures Precision2() * Distance(ExactCost(calls, e), Units(Replay(NO_USAGE, calls).cost, e))
            <= CounterSum(calls, e)
  {
    hide Plus, Units, Precision2, Pow10, ExactCost, Replay, CounterSum, CostsAbove;
    if calls == [] {
      NothingSpent(calls, e);
    } else {
      var n := |calls| - 1;
      LastCall(calls, e);
      StoredTracksExact(calls[..n], e);
      var before, cost := Replay(NO_USAGE, calls[..n]).cost, calls[n].cost;
      PlusError(before, cost, e);
      Triangle(Precision2(), ExactCost(calls[..n], e), Units(before, e), Units(cost, e), Units(Plus(before, cost), e),
          CounterSum(calls[..n], e));
    }
  }

  lemma Triangle(h: nat, exact: nat, stored: nat, cost: nat, next: nat, sum: nat)
    requires h * Distance(exact, stored) <= sum && h * Distance(stored + cost, next) <= next
    ensures h * Distance(exact + cost, next) <= sum + next
  {
    assert Distance(exact + cost, next) <= Distance(exact, stored) + Distance(stored + cost, next);
    Scale(Distance(exact + cost, next), Distance(exact, stored) + Distance(stored + cost, next), h);
    Distribute(Distance(exact, stored), Distance(stored + cost, next), h);
  }

  lemma Distribute(a: int, b: int, p: int)
    ensures (a + b) * p == a * p + b * p
    ensures p * (a + b) == p * a + p * b
  {}

  /** No addition of the run has a sum of more than 28 digits. */
  ghost predicate NothingRounded(calls: seq<ToolCall>)
  {
    forall i | 0 <= i < |calls| ::
      var stored, cost := Replay(NO_USAGE, calls[..i]).cost, calls[i].cost;
      Sum(stored, cost, Min(stored.exp, cost.exp)) < Pow10(PRECISION)
  }

  lemma NothingRoundedPrefix(calls: seq<ToolCall>, n: nat)
    requires NothingRounded(calls) && n <= |calls|
    ensures NothingRounded(calls[..n])
  {
    hide Replay, Pow10, Units;
    forall i | 0 <= i < n
      ensures var stored, cost := Replay(NO_USAGE, calls[..n][..i]).cost, calls[..n][i].cost;
              Sum(stored, cost, Min(stored.exp, cost.exp)) < Pow10(PRECISION)
    {
      assert calls[..n][..i] == calls[..i];
    }
  }

  /** While no addition needs rounding the stored cost is the exact sum ... */
  lemma {:induction false} ExactUntilRounded(calls: seq<ToolCall>, e: int)
    requires CostsAbove(calls, e) && e <= 0 && NothingRounded(calls)
    ensures e <= Replay(NO_USAGE, calls).cost.exp
    ensures Units(Replay(NO_USAGE, calls).cost, e) == ExactCost(calls, e)
  {
    if calls == [] {
      NothingSpent(calls, e);
    } else {
      var n := |calls| - 1;
      assert calls[..n][..] == calls[..n];
      NothingRoundedPrefix(calls, n);
      var stored, cost := Replay(NO_USAGE, calls[..n]).cost, calls[n].cost;
      assert Sum(stored, cost, Min(stored.exp, cost.exp)) < Pow10(PRECISION);
      hide *;
      LastCall(calls, e);
      ExactUntilRounded(calls[..n], e);
      ExactPlus(stored, cost, e);
    }
  }

  lemma ExactPlus(a: Decimal, b: Decimal, e: int)
    requires e <= a.exp && e <= b.exp && Sum(a, b, Min(a.exp, b.exp)) < Pow10(PRECISION)
    ensures e <= Plus(a, b).exp && Units(Plus(a, b), e) == Units(a, e) + Units(b, e)
  {
    hide Plus, Pow10, Units;
    var m := Min(a.exp, b.exp);
    PlusIsExact(a, b);
    SumRescale(a, b, m, e);
    OwnUnits(Sum(a, b, m), m, e);
  }

  /** ... and none does while the exact sum, in a unit all the costs are multiples of, has at most 28 digits. */
  lemma {:induction false} SmallSumsAreExact(calls: seq<ToolCall>, e: int)
    requires CostsAbove(calls, e) && e <= 0 && ExactCost(calls, e) < Pow10(PRECISION)
    ensures NothingRounded(calls)
    ensures e <= Replay(NO_USAGE, calls).cost.exp
    ensures Units(Replay(NO_USAGE, calls).cost, e) == ExactCost(calls, e)
  {
    if calls == [] {
      NothingSpent(calls, e);
    } else {
      hide *;
      var n := |calls| - 1;
      LastCall(calls, e);
      SmallSumsAreExact(calls[..n], e);
      var stored, cost := Replay(NO_USAGE, calls[..n]).cost, calls[n].cost;
      SmallInItsUnit(stored, cost, e);
      ExactPlus(stored, cost, e);
      NothingRoundedNext(calls);
    }
  }

  lemma SmallInItsUnit(a: Decimal, b: Decimal, e: int)
    requires e <= a.exp && e <= b.exp && Units(a, e) + Units(b, e) < Pow10(PRECISION)
    ensures Sum(a, b, Min(a.exp, b.exp)) < Pow10(PRECISION)
  {
    hide Pow10, Units;
    var m := Min(a.exp, b.exp);
    SumRescale(a, b, m, e);
    if Sum(a, b, m) > 0 { AtLeastUnits(Pow10(m - e), 1, Sum(a, b, m)); }
  }

  lemma NothingRoundedNext(calls: seq<ToolCall>)
    requires calls != []
    requires NothingRounded(calls[..|calls| - 1])
    requires var stored, cost := Replay(NO_USAGE, calls[..|calls| - 1]).cost, calls[|calls| - 1].cost;
             Sum(stored, cost, Min(stored.exp, cost.exp)) < Pow10(PRECISION)
    ensures NothingRounded(calls)
  {
    hide Replay, Pow10, Units;
    var n := |calls| - 1;
    forall i | 0 <= i < n
      ensures var stored, cost := Replay(NO_USAGE, calls[..i]).cost, calls[i].cost;
              Sum(stored, cost, Min(stored.exp, cost.exp)) < Pow10(PRECISION)
    {
      assert calls[..n][..i] == calls[..i] && calls[..n][i] == calls[i];
    }
  }

  // ---------------------------------------------------------------- the cost under a cap

  lemma RunStaysUnderCost(policy: Policy, calls: seq<ToolCall>)
    requires policy.budget.maxCost.Some?
    requires Admitted(policy, NO_USAGE, calls)
    ensures !Exceeds(Replay(NO_USAGE, calls).cost, policy.budget.maxCost.value)
  {
    NoUsageIsWithinCaps(policy);
    RunKeepsCaps(policy, NO_USAGE, calls);
  }

  lemma {:induction false} CounterSumIsCapped(policy: Policy, calls: seq<ToolCall>, e: int)
    requires policy.budget.maxCost.Some? && Admitted(policy, NO_USAGE, calls)
    requires CostsAbove(calls, e) && e <= 0 && e <= policy.budget.maxCost.value.exp
    ensures CounterSum(calls, e) <= |calls| * Units(policy.budget.maxCost.value, e)
  {
    if calls != [] {
      hide *;
      var n, cap := |calls| - 1, policy.budget.maxCost.value;
      LastCall(calls, e);
      AdmittedPrefix(policy, NO_USAGE, calls, n);
      CounterSumIsCapped(policy, calls[..n], e);
      RunStaysUnderCost(policy, calls);
      ExceedsInUnits(Replay(NO_USAGE, calls).cost, cap, e);
      Distribute(n, 1, Units(cap, e));
    }
  }

  /**
   * The rounded counter never passes the cap, and it and the exact sum of n reserved costs are never further apart than
   * n parts in 2 * 10^27 of the cap; so that is also the most by which the exact sum can pass the cap.
   */
  lemma ExactCostIsBounded(policy: Policy, calls: seq<ToolCall>, e: int)
    requires policy.budget.maxCost.Some?
    requires Admitted(policy, NO_USAGE, calls)
    requires CostsAbove(calls, e) && e <= 0 && e <= policy.budget.maxCost.value.exp
    ensures var stored, cap := Replay(NO_USAGE, calls).cost, policy.budget.maxCost.value;
            && !Exceeds(stored, cap) && e <= stored.exp
            && Precision2() * Distance(ExactCost(calls, e), Units(stored, e)) <= |calls| * Units(cap, e)
            && Precision2() * ExactCost(calls, e) <= (Precision2() + |calls|) * Units(cap, e)
  {
    hide *;
    var stored, cap := Replay(NO_USAGE, calls).cost, policy.budget.maxCost.value;
    StoredTracksExact(calls, e);
    CounterSumIsCapped(policy, calls, e);
    RunStaysUnderCost(policy, calls);
    ExceedsInUnits(stored, cap, e);
    Combine(Precision2(), ExactCost(calls, e), Units(stored, e), Units(cap, e), |calls|);
  }

  lemma Combine(h: nat, exact: nat, stored: nat, cap: nat, n: nat)
    requires h * Distance(exact, stored) <= n * cap && stored <= cap
    ensures h * exact <= (h + n) * cap
  {
    Scale(exact, Distance(exact, stored) + stored, h);
    Distribute(Distance(exact, stored), stored, h);
    Scale(stored, cap, h);
    Distribute(h, n, cap);
  }
}
