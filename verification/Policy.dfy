/** Tool calls, usage counters and the first-match policy evaluator. */
module Policies {
  import opened Json
  import opened Decimals
  import Glob

  datatype DecisionKind = Allow | Block | RequireApproval

  datatype Decision = Decision(kind: DecisionKind, reason: string, code: string, ruleIndex: Option<nat>)
  {
    /** Whether this evaluation takes a reservation; `approved` is set only on the one after a human approval. */
    predicate ReservesUsage(approved: bool)
    {
      kind == Allow || (approved && kind != Block)
    }
  }

  datatype ToolCall = ToolCall(name: string, arguments: map<string, Value>, cost: Decimal)
  {
    /** The hash of the canonical text of the name and the depth-bounded arguments, taken as injective. */
    function Fingerprint(): (string, Value) { (name, Bounded(Obj(arguments), 0)) }
  }

  type Fingerprint = (string, Value)

  datatype Usage = Usage(
    toolCalls: nat,
    cost: Decimal,
    byTool: map<string, nat>,
    byFingerprint: map<Fingerprint, nat>)
  {
    function OfTool(tool: string): nat { if tool in byTool then byTool[tool] else 0 }

    function OfFingerprint(f: Fingerprint): nat { if f in byFingerprint then byFingerprint[f] else 0 }

    /** The usage after one more reservation. */
    function Recorded(call: ToolCall): Usage
    {
      Usage(
        toolCalls + 1,
        Plus(cost, call.cost),
        byTool[call.name := OfTool(call.name) + 1],
        byFingerprint[call.Fingerprint() := OfFingerprint(call.Fingerprint()) + 1])
    }
  }

  const NO_USAGE := Usage(0, ZERO, map[], map[])

  datatype Budget = Budget(
    maxCalls: Option<nat>,
    maxCallsPerTool: Option<nat>,
    maxIdenticalCalls: Option<nat>,
    maxCost: Option<Decimal>)

  datatype Rule = Rule(tool: string, decision: DecisionKind, reason: string, arguments: map<string, Value>)

  // `typed` decides the typed matchers: pattern object first, argument value second.
  datatype Policy = Policy(
    defaultDecision: DecisionKind,
    budget: Budget,
    rules: seq<Rule>,
    typed: (Value, Value) -> bool)

  predicate IsTyped(pattern: Value) { pattern.Obj? && "operator" in pattern.fields }

  predicate ArgumentMatches(typed: (Value, Value) -> bool, pattern: Value, value: Value)
  {
    if IsTyped(pattern) then typed(pattern, value)
    else if pattern.Str? then value.Str? && Glob.Match(pattern.s, value.s)
    else StrictEqual(value, pattern)
  }

  predicate RuleToolMatches(rule: Rule, call: ToolCall) { Glob.Match(rule.tool, call.name) }

  predicate RuleArgumentsMatch(typed: (Value, Value) -> bool, rule: Rule, call: ToolCall)
  {
    forall key | key in rule.arguments ::
      key in call.arguments && ArgumentMatches(typed, rule.arguments[key], call.arguments[key])
  }

  predicate RuleMatches(typed: (Value, Value) -> bool, rule: Rule, call: ToolCall)
  {
    RuleToolMatches(rule, call) && RuleArgumentsMatch(typed, rule, call)
  }

  function BudgetDecision(policy: Policy, call: ToolCall, usage: Usage): Option<Decision>
  {
    var b := policy.budget;
    if b.maxCalls.Some? && usage.toolCalls >= b.maxCalls.value then
      Some(Decision(Block, "run tool-call budget exhausted", "max_calls", None))
    else if b.maxCallsPerTool.Some? && usage.OfTool(call.name) >= b.maxCallsPerTool.value then
      Some(Decision(Block, "per-tool repetition budget exhausted", "max_calls_per_tool", None))
    else if b.maxIdenticalCalls.Some? && usage.OfFingerprint(call.Fingerprint()) >= b.maxIdenticalCalls.value then
      Some(Decision(Block, "identical tool-call budget exhausted", "max_identical_calls", None))
    else if b.maxCost.Some? && Exceeds(Plus(usage.cost, call.cost), b.maxCost.value) then
      Some(Decision(Block, "estimated run cost would exceed budget", "max_cost_usd", None))
    else None
  }

  /** The decision of the rules alone, from rule `from` on. */
  function RuleDecision(policy: Policy, call: ToolCall, from: nat): Decision
    requires from <= |policy.rules|
    decreases |policy.rules| - from
  {
    if from == |policy.rules| then Decision(policy.defaultDecision, "no policy rule matched", "default", None)
    else if RuleMatches(policy.typed, policy.rules[from], call) then
      Decision(policy.rules[from].decision, policy.rules[from].reason, "rule_match", Some(from))
    else RuleDecision(policy, call, from + 1)
  }

  function Evaluate(policy: Policy, call: ToolCall, usage: Usage): Decision
  {
    var budget := BudgetDecision(policy, call, usage);
    if budget.Some? then budget.value else RuleDecision(policy, call, 0)
  }

  /** A rule is the one selected exactly when it matches and no earlier rule does. */
  lemma {:induction false} FirstMatchWins(policy: Policy, call: ToolCall, from: nat, index: nat)
    requires from <= |policy.rules|
    ensures RuleDecision(policy, call, from).ruleIndex == Some(index) <==>
            && from <= index < |policy.rules|
            && RuleMatches(policy.typed, policy.rules[index], call)
            && forall k | from <= k < index :: !RuleMatches(policy.typed, policy.rules[k], call)
    decreases |policy.rules| - from
  {
    if from < |policy.rules| && !RuleMatches(policy.typed, policy.rules[from], call) {
      FirstMatchWins(policy, call, from + 1, index);
    }
  }

  /**
   * Two calls count as identical exactly when they name the same tool with arguments that agree in everything that
   * stands in fewer than 65 containers, the arguments themselves being the first.
   */
  lemma SameFingerprint(a: ToolCall, b: ToolCall)
    ensures a.Fingerprint() == b.Fingerprint() <==>
            a.name == b.name && SameDownTo(Obj(a.arguments), Obj(b.arguments), 65)
  {
    hide Bounded;
    BoundedIffSame(Obj(a.arguments), Obj(b.arguments), 0);
  }

  /** So arguments that are nowhere nested that deep count as identical only if they are. */
  lemma ShallowFingerprints(a: ToolCall, b: ToolCall)
    requires NestedWithin(Obj(a.arguments), 64) && NestedWithin(Obj(b.arguments), 64)
    ensures a.Fingerprint() == b.Fingerprint() <==> a.name == b.name && a.arguments == b.arguments
  {
    hide Bounded, NestedWithin;
    BoundedKeepsShallow(Obj(a.arguments), 0);
    BoundedKeepsShallow(Obj(b.arguments), 0);
  }

  /** Rule `i` matches the call and no earlier rule does. */
  predicate IsFirstMatch(policy: Policy, call: ToolCall, i: nat)
  {
    && i < |policy.rules| && RuleMatches(policy.typed, policy.rules[i], call)
    && forall k | 0 <= k < i :: !RuleMatches(policy.typed, policy.rules[k], call)
  }

  predicate NoneMatches(policy: Policy, call: ToolCall)
  {
    forall k | 0 <= k < |policy.rules| :: !RuleMatches(policy.typed, policy.rules[k], call)
  }

  lemma {:induction false} RulesAnswer(policy: Policy, call: ToolCall, from: nat)
    requires from <= |policy.rules|
    requires forall k | 0 <= k < from :: !RuleMatches(policy.typed, policy.rules[k], call)
    ensures NoneMatches(policy, call) || exists i: nat :: IsFirstMatch(policy, call, i)
    ensures var d := RuleDecision(policy, call, from);
            && (forall i: nat | IsFirstMatch(policy, call, i) ::
                  d == Decision(policy.rules[i].decision, policy.rules[i].reason, "rule_match", Some(i)))
            && (NoneMatches(policy, call) ==>
                  d == Decision(policy.defaultDecision, "no policy rule matched", "default", None))
    decreases |policy.rules| - from
  {
    hide RuleMatches;
    if from < |policy.rules| {
      if RuleMatches(policy.typed, policy.rules[from], call) {
        assert IsFirstMatch(policy, call, from);
        assert forall i: nat | IsFirstMatch(policy, call, i) :: i == from;
      } else {
        RulesAnswer(policy, call, from + 1);
      }
    }
  }

  /**
   * An evaluation that passes the budget answers with the decision and reason of the first rule that matches, under its
   * index, and with the policy's default where none does; any other is a block that names no rule.
   */
  lemma EvaluationIs(policy: Policy, call: ToolCall, usage: Usage)
    ensures NoneMatches(policy, call) || exists i: nat :: IsFirstMatch(policy, call, i)
    ensures var d := Evaluate(policy, call, usage);
            if BudgetDecision(policy, call, usage).Some? then d.kind == Block && d.ruleIndex == None
            else
              && (forall i: nat | IsFirstMatch(policy, call, i) ::
                    d == Decision(policy.rules[i].decision, policy.rules[i].reason, "rule_match", Some(i)))
              && (NoneMatches(policy, call) ==>
                    d == Decision(policy.defaultDecision, "no policy rule matched", "default", None))
  {
    hide RuleDecision, IsFirstMatch, NoneMatches, Exceeds, Plus;
    RulesAnswer(policy, call, 0);
  }

  /**
   * A rule matches a call whose name its glob matches and which has every argument the rule names, with a value the
   * rule's pattern accepts: a typed pattern as its matcher says, a string as a glob, anything else only itself.
   */
  lemma RuleMatchesWhen(typed: (Value, Value) -> bool, rule: Rule, call: ToolCall)
    ensures RuleMatches(typed, rule, call) <==>
            && Glob.Match(rule.tool, call.name)
            && forall key | key in rule.arguments ::
                 && key in call.arguments
                 && var want, value := rule.arguments[key], call.arguments[key];
                    if want.Obj? && "operator" in want.fields then typed(want, value)
                    else if want.Str? then value.Str? && Glob.Match(want.s, value.s)
                    else value == want
  {
    hide Glob.Match, StrictEqual;
    forall key | key in rule.arguments && key in call.arguments
      ensures StrictEqual(call.arguments[key], rule.arguments[key]) <==> call.arguments[key] == rule.arguments[key]
    {
      StrictEqualIsEquality(call.arguments[key], rule.arguments[key]);
    }
  }

  /**
   * Whatever the usage, an evaluation gives the rules' own answer or a budget block: a second one cannot say anything
   * else.
   */
  lemma SecondEvaluation(policy: Policy, call: ToolCall, usage: Usage)
    ensures var again := Evaluate(policy, call, usage);
            && (again == RuleDecision(policy, call, 0) || (again.kind == Block && again.ruleIndex == None))
            && (again.kind != Block ==>
                  BudgetDecision(policy, call, usage) == None && again == RuleDecision(policy, call, 0))
  {
    hide RuleDecision, Exceeds, Plus;
  }
}
