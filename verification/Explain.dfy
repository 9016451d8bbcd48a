/** The explanation of one decision: every budget check and every rule, beside the evaluator's own answer. */
module Explain {
  import opened Json
  import opened Decimals
  import opened Policies

  // A count or an amount, as the explanation prints it.
  datatype Quantity = Count(n: nat) | Money(d: Decimal)

  datatype BudgetCheck = BudgetCheck(name: string, current: Quantity, limit: Quantity, triggered: bool)

  datatype BudgetExplanation = BudgetExplanation(checks: seq<BudgetCheck>, triggered: bool, message: Option<string>)

  datatype RuleExplanation = RuleExplanation(
    index: nat, rule: Rule, toolMatched: bool, argumentsMatched: bool, matched: bool, selected: bool)

  datatype CallExplanation = CallExplanation(
    call: ToolCall, budget: BudgetExplanation, rules: seq<RuleExplanation>, decision: Decision)

  // ---------------------------------------------------------------- the two lists

  predicate Exceeded(check: BudgetCheck)
  {
    match (check.current, check.limit)
    case (Count(n), Count(limit)) => n >= limit
    case (Money(d), Money(limit)) => Exceeds(d, limit)
    case _ => false
  }

  function CountCheck(name: string, current: nat, limit: Option<nat>): seq<BudgetCheck>
  {
    if limit.None? then [] else [BudgetCheck(name, Count(current), Count(limit.value), current >= limit.value)]
  }

  function CostCheck(projected: Decimal, limit: Option<Decimal>): seq<BudgetCheck>
  {
    if limit.None? then []
    else [BudgetCheck("max_cost_usd", Money(projected), Money(limit.value), Exceeds(projected, limit.value))]
  }

  /** One check for each limit the policy sets, in the order the evaluator tries them. */
  function Checks(policy: Policy, call: ToolCall, usage: Usage): seq<BudgetCheck>
  {
    var b := policy.budget;
    CountCheck("max_calls", usage.toolCalls, b.maxCalls)
    + CountCheck("max_calls_per_tool", usage.OfTool(call.name), b.maxCallsPerTool)
    + CountCheck("max_identical_calls", usage.OfFingerprint(call.Fingerprint()), b.maxIdenticalCalls)
    + CostCheck(Plus(usage.cost, call.cost), b.maxCost)
  }

  function RuleLine(policy: Policy, call: ToolCall, usage: Usage, i: nat): RuleExplanation
    requires i < |policy.rules|
  {
    var rule := policy.rules[i];
    var tool, arguments := RuleToolMatches(rule, call), RuleArgumentsMatch(policy.typed, rule, call);
    RuleExplanation(i, rule, tool, arguments, tool && arguments,
                    BudgetDecision(policy, call, usage).None? && Evaluate(policy, call, usage).ruleIndex == Some(i))
  }

  function Explained(policy: Policy, call: ToolCall, usage: Usage): CallExplanation
  {
    var budget := BudgetDecision(policy, call, usage);
    CallExplanation(
      call,
      BudgetExplanation(
        Checks(policy, call, usage),
        budget.Some?,
        if budget.Some? then Some(budget.value.reason) else None),
      seq(|policy.rules|, i requires 0 <= i < |policy.rules| => RuleLine(policy, call, usage, i)),
      Evaluate(policy, call, usage))
  }

  lemma CountListed(checks: seq<BudgetCheck>, name: string, current: nat, limit: Option<nat>)
    ensures checks + CountCheck(name, current, limit)
            == if limit.None? then checks
               else checks + [BudgetCheck(name, Count(current), Count(limit.value), current >= limit.value)]
    ensures [] + CountCheck(name, current, limit) == CountCheck(name, current, limit)
  {}

  lemma CostListed(checks: seq<BudgetCheck>, projected: Decimal, limit: Option<Decimal>)
    ensures checks + CostCheck(projected, limit)
            == if limit.None? then checks
               else checks + [BudgetCheck("max_cost_usd", Money(projected), Money(limit.value),
                                          Exceeds(projected, limit.value))]
  {
    hide Exceeds;
  }

  method ExplainBudget(policy: Policy, call: ToolCall, usage: Usage, decision: Option<Decision>)
    returns (explanation: BudgetExplanation)
    ensures explanation.checks == Checks(policy, call, usage)
    ensures explanation.triggered <==> decision.Some?
    ensures explanation.message == if decision.Some? then Some(decision.value.reason) else None
  {
    hide Exceeds, Plus, CountCheck, CostCheck, Usage.OfTool, Usage.OfFingerprint, ToolCall.Fingerprint;
    var budget := policy.budget;
    var checks := [];
    CountListed(checks, "max_calls", usage.toolCalls, budget.maxCalls);
    if budget.maxCalls.Some? {
      checks := checks + [BudgetCheck("max_calls", Count(usage.toolCalls), Count(budget.maxCalls.value),
                                      usage.toolCalls >= budget.maxCalls.value)];
    }
    var prior := usage.OfTool(call.name);
    CountListed(checks, "max_calls_per_tool", prior, budget.maxCallsPerTool);
    if budget.maxCallsPerTool.Some? {
      checks := checks + [BudgetCheck("max_calls_per_tool", Count(prior), Count(budget.maxCallsPerTool.value),
                                      prior >= budget.maxCallsPerTool.value)];
    }
    prior := usage.OfFingerprint(call.Fingerprint());
    CountListed(checks, "max_identical_calls", prior, budget.maxIdenticalCalls);
    if budget.maxIdenticalCalls.Some? {
      checks := checks + [BudgetCheck("max_identical_calls", Count(prior), Count(budget.maxIdenticalCalls.value),
                                      prior >= budget.maxIdenticalCalls.value)];
    }
    var projected := Plus(usage.cost, call.cost);
    CostListed(checks, projected, budget.maxCost);
    if budget.maxCost.Some? {
      checks := checks + [BudgetCheck("max_cost_usd", Money(projected), Money(budget.maxCost.value),
                                      Exceeds(projected, budget.maxCost.value))];
    }
    var message := if decision.Some? then Some(decision.value.reason) else None;
    explanation := BudgetExplanation(checks, decision.Some?, message);
  }

  method ExplainCall(policy: Policy, call: ToolCall, usage: Usage) returns (explanation: CallExplanation)
    ensures explanation == Explained(policy, call, usage)
  {
    hide Evaluate, BudgetDecision, Checks, RuleToolMatches, RuleArgumentsMatch;
    var budgetDecision := BudgetDecision(policy, call, usage);
    var budget := ExplainBudget(policy, call, usage, budgetDecision);
    var decision := Evaluate(policy, call, usage);
    var rules := [];
    for index := 0 to |policy.rules|
      invariant rules == seq(index, i requires 0 <= i < index => RuleLine(policy, call, usage, i))
    {
      var rule := policy.rules[index];
      var toolMatched := RuleToolMatches(rule, call);
      var argumentsMatched := RuleArgumentsMatch(policy.typed, rule, call);
      rules := rules + [RuleExplanation(index, rule, toolMatched, argumentsMatched, toolMatched && argumentsMatched,
                                        budgetDecision.None? && decision.ruleIndex == Some(index))];
    }
    explanation := CallExplanation(call, budget, rules, decision);
  }

  // ---------------------------------------------------------------- agreement with the evaluator

  /** The first check that is triggered, if any. */
  function FirstTriggered(checks: seq<BudgetCheck>): Option<BudgetCheck>
  {
    if checks == [] then None else if checks[0].triggered then Some(checks[0]) else FirstTriggered(checks[1..])
  }

  lemma {:induction false} FirstTriggeredIsFirst(checks: seq<BudgetCheck>)
    ensures var first := FirstTriggered(checks);
            if first.None? then forall i | 0 <= i < |checks| :: !checks[i].triggered
            else exists k | 0 <= k < |checks| ::
                   checks[k] == first.value && first.value.triggered && forall i | 0 <= i < k :: !checks[i].triggered
  {
    if checks != [] && !checks[0].triggered {
      FirstTriggeredIsFirst(checks[1..]);
      var first := FirstTriggered(checks[1..]);
      if first.Some? {
        var k :| 0 <= k < |checks[1..]| && checks[1..][k] == first.value && forall i | 0 <= i < k ::
            !checks[1..][i].triggered;
        assert checks[k + 1] == first.value;
        forall i | 0 <= i < k + 1 ensures !checks[i].triggered {
          if i > 0 { assert checks[i] == checks[1..][i - 1]; }
        }
      } else {
        forall i | 0 <= i < |checks| ensures !checks[i].triggered {
          if i > 0 { assert checks[i] == checks[1..][i - 1]; }
        }
      }
    }
  }

  lemma {:induction false} FirstOfJoined(a: seq<BudgetCheck>, b: seq<BudgetCheck>)
    ensures FirstTriggered(a + b) == if FirstTriggered(a).Some? then FirstTriggered(a) else FirstTriggered(b)
  {
    if a == [] {
      assert a + b == b;
    } else {
      assert (a + b)[0] == a[0] && (a + b)[1..] == a[1..] + b;
      FirstOfJoined(a[1..], b);
    }
  }

  lemma FirstOfCount(name: string, current: nat, limit: Option<nat>)
    ensures var first := FirstTriggered(CountCheck(name, current, limit));
            && (first.Some? <==> limit.Some? && current >= limit.value)
            && (first.Some? ==> first.value.name == name)
  {}

  lemma FirstOfCost(projected: Decimal, limit: Option<Decimal>)
    ensures var first := FirstTriggered(CostCheck(projected, limit));
            && (first.Some? <==> limit.Some? && Exceeds(projected, limit.value))
            && (first.Some? ==> first.value.name == "max_cost_usd")
  {
    hide Exceeds;
  }

  lemma FirstOfChecks(policy: Policy, call: ToolCall, usage: Usage)
    ensures var first, budget := FirstTriggered(Checks(policy, call, usage)), BudgetDecision(policy, call, usage);
            && (budget.Some? <==> first.Some?)
            && (first.Some? ==> budget.value.kind == Block && budget.value.code == first.value.name)
  {
    hide Exceeds, Plus, FirstTriggered, CountCheck, CostCheck;
    var b := policy.budget;
    var calls := CountCheck("max_calls", usage.toolCalls, b.maxCalls);
    var perTool := CountCheck("max_calls_per_tool", usage.OfTool(call.name), b.maxCallsPerTool);
    var identical := CountCheck("max_identical_calls", usage.OfFingerprint(call.Fingerprint()), b.maxIdenticalCalls);
    var cost := CostCheck(Plus(usage.cost, call.cost), b.maxCost);
    FirstOfJoined(calls, perTool);
    FirstOfJoined(calls + perTool, identical);
    FirstOfJoined(calls + perTool + identical, cost);
    FirstOfCount("max_calls", usage.toolCalls, b.maxCalls);
    FirstOfCount("max_calls_per_tool", usage.OfTool(call.name), b.maxCallsPerTool);
    FirstOfCount("max_identical_calls", usage.OfFingerprint(call.Fingerprint()), b.maxIdenticalCalls);
    FirstOfCost(Plus(usage.cost, call.cost), b.maxCost);
  }

  /**
   * The budget decides exactly when a listed check is triggered, that is, when the quantity a check prints reaches the
   * limit it prints, or for money passes it; and the decision names the first such check.
   */
  lemma BudgetAgrees(policy: Policy, call: ToolCall, usage: Usage)
    ensures var first, e := FirstTriggered(Checks(policy, call, usage)), Explained(policy, call, usage);
            && e.budget.checks == Checks(policy, call, usage)
            && (e.budget.triggered <==> first.Some?)
            && (e.budget.triggered <==> exists check | check in e.budget.checks :: Exceeded(check))
            && (first.Some? ==> e.decision.kind == Block && e.decision.code == first.value.name
                                && e.budget.message == Some(e.decision.reason))
  {
    hide BudgetDecision, RuleDecision, Checks, FirstTriggered, RuleLine, Exceeded;
    FirstOfChecks(policy, call, usage);
    var checks := Checks(policy, call, usage);
    forall i | 0 <= i < |checks| ensures checks[i].triggered <==> Exceeded(checks[i]) {
      ChecksSayWhatTheyShow(policy, call, usage, i);
    }
    FirstTriggeredIsFirst(checks);
  }

  /**
   * A check is triggered exactly when the limit it prints is reached, or for money passed, by the quantity it prints.
   */
  lemma ChecksSayWhatTheyShow(policy: Policy, call: ToolCall, usage: Usage, i: nat)
    requires i < |Checks(policy, call, usage)|
    ensures var check := Checks(policy, call, usage)[i]; check.triggered <==> Exceeded(check)
  {
    hide Exceeds, Plus;
  }

  lemma {:induction false} CodeOfRules(policy: Policy, call: ToolCall, from: nat)
    requires from <= |policy.rules|
    ensures RuleDecision(policy, call, from).code == "rule_match" <==> RuleDecision(policy, call, from).ruleIndex.Some?
    decreases |policy.rules| - from
  {
    if from < |policy.rules| && !RuleMatches(policy.typed, policy.rules[from], call) {
      CodeOfRules(policy, call, from + 1);
    }
  }

  /** A rule is marked selected exactly when the decision is a rule match and it is the first rule marked matched. */
  lemma SelectedIsFirstMatched(policy: Policy, call: ToolCall, usage: Usage, i: nat)
    requires i < |policy.rules|
    ensures var e := Explained(policy, call, usage);
            && (e.rules[i].matched <==> RuleMatches(policy.typed, policy.rules[i], call))
            && (e.rules[i].selected <==>
                  && e.decision.code == "rule_match"
                  && e.rules[i].matched
                  && forall k | 0 <= k < i :: !e.rules[k].matched)
            && (e.rules[i].selected ==>
                  e.decision.kind == policy.rules[i].decision && e.decision.reason == policy.rules[i].reason)
  {
    hide RuleDecision, RuleToolMatches, RuleArgumentsMatch, Exceeds, Plus;
    FirstMatchWins(policy, call, 0, i);
    CodeOfRules(policy, call, 0);
    DecisionOfRule(policy, call, 0, i);
    var e := Explained(policy, call, usage);
    assert forall k | 0 <= k < |policy.rules| ::
        e.rules[k].matched <==> RuleMatches(policy.typed, policy.rules[k], call);
  }

  lemma {:induction false} DecisionOfRule(policy: Policy, call: ToolCall, from: nat, i: nat)
    requires from <= |policy.rules| && i < |policy.rules|
    ensures var d := RuleDecision(policy, call, from);
            d.ruleIndex == Some(i) ==> d.kind == policy.rules[i].decision && d.reason == policy.rules[i].reason
    decreases |policy.rules| - from
  {
    if from < |policy.rules| && !RuleMatches(policy.typed, policy.rules[from], call) {
      DecisionOfRule(policy, call, from + 1, i);
    }
  }
}
