/** What holds in every run of the lifecycle, with any number of concurrent callers interleaved in any way. */
module FirewallRuns {
  import opened Json
  import opened Decimals
  import opened Policies
  import opened Budgets
  import opened Firewalls

  datatype Action =
    | Arrives(call: ToolCall)
    | Evaluates(storeOk: bool)
    | Audits(outcome: AuditOutcome)
    | HumanAnswers(approved: bool)
    | ApproverFails
    | Starts
    | Ends(ok: bool)

  predicate Enabled(s: State, id: nat, a: Action)
  {
    if a.Arrives? then id !in s.calls
    else
      && id in s.calls
      && var phase := s.calls[id].phase;
         match a
         case Evaluates(_) => MayEvaluate(phase)
         case Audits(outcome) => MayAudit(phase) && (outcome == UsageUnreadable ==> ReadsUsage(phase))
         case HumanAnswers(_) => phase.AwaitingApprover?
         case ApproverFails => phase.AwaitingApprover?
         case Starts => phase.Ready?
         case Ends(_) => phase.Operating?
  }

  function Next(cfg: Config, s: State, id: nat, a: Action): State
    requires Enabled(s, id, a)
  {
    match a
    case Arrives(call) => Create(s, id, call)
    case Evaluates(storeOk) => EvaluateAndReserve(cfg, s, id, storeOk)
    case Audits(outcome) => Audit(cfg, s, id, outcome)
    case HumanAnswers(approved) => Answer(s, id, approved)
    case ApproverFails => ApproverRaises(s, id)
    case Starts => Start(s, id)
    case Ends(ok) => EndOperation(s, id, ok)
  }

  /** The state a schedule leads to, when each of its steps can be taken. */
  function Run(cfg: Config, s: State, schedule: seq<(nat, Action)>): Option<State>
    decreases |schedule|
  {
    if schedule == [] then Some(s)
    else if Enabled(s, schedule[0].0, schedule[0].1) then
      Run(cfg, Next(cfg, s, schedule[0].0, schedule[0].1), schedule[1..])
    else None
  }

  lemma NextKeepsInv(cfg: Config, s: State, id: nat, a: Action)
    requires Inv(cfg, s) && Enabled(s, id, a)
    ensures Inv(cfg, Next(cfg, s, id, a))
  {
    hide Inv, EvaluateAndReserve, Audit, Create, Answer, ApproverRaises, Start, EndOperation;
    match a
    case Arrives(call) => CreateKeepsInv(cfg, s, id, call);
    case Evaluates(storeOk) => EvaluateKeepsInv(cfg, s, id, storeOk);
    case Audits(outcome) => AuditKeepsInv(cfg, s, id, outcome);
    case HumanAnswers(approved) => AnswerKeepsInv(cfg, s, id, approved);
    case ApproverFails => ApproverRaisesKeepsInv(cfg, s, id);
    case Starts => StartKeepsInv(cfg, s, id);
    case Ends(ok) => EndKeepsInv(cfg, s, id, ok);
  }

  lemma {:induction false} RunKeepsInv(cfg: Config, s: State, schedule: seq<(nat, Action)>)
    requires Inv(cfg, s) && Run(cfg, s, schedule).Some?
    ensures Inv(cfg, Run(cfg, s, schedule).value)
    decreases |schedule|
  {
    if schedule != [] {
      NextKeepsInv(cfg, s, schedule[0].0, schedule[0].1);
      RunKeepsInv(cfg, Next(cfg, s, schedule[0].0, schedule[0].1), schedule[1..]);
    }
  }

  // ---------------------------------------------------------------- exactly one reservation

  ghost predicate Reached(cfg: Config, s: State)
  {
    exists schedule :: Run(cfg, Initial(cfg), schedule) == Some(s)
  }

  lemma ReachedKeepsInv(cfg: Config, s: State)
    requires Reached(cfg, s)
    ensures Inv(cfg, s)
  {
    var schedule :| Run(cfg, Initial(cfg), schedule) == Some(s);
    RunKeepsInv(cfg, Initial(cfg), schedule);
  }

  lemma InvAt(cfg: Config, s: State, id: nat)
    requires Reached(cfg, s) && id in s.calls
    ensures PhaseOk(cfg, s.calls[id], Reservations(s.reserved, id))
  {
    hide Replay, Admitted, PhaseOk, Reservations;
    ReachedKeepsInv(cfg, s);
  }

  predicate UnrecordedAuthorization(outcome: Outcome)
  {
    outcome == AuditFailed(Allowed, false) || outcome == AuditFailed(ApprovalGranted, false)
  }

  lemma PhaseOkReservations(cfg: Config, c: Call, n: nat)
    requires PhaseOk(cfg, c, n)
    ensures c.started <= 1 && n <= 1
    ensures c.started == 1 ==> n == 1
    ensures c.phase.AwaitingApprover? || c.phase.Answered? ==> n == 0
    ensures c.phase.Finished? && c.started == 0 ==> (n == 1 <==> UnrecordedAuthorization(c.phase.outcome))
  {
    hide RuleDecision;
  }

  /** A started operation holds exactly one reservation, and a blocked, denied or unapproved call holds none. */
  lemma ReservedExactlyOnce(cfg: Config, s: State, id: nat)
    requires Reached(cfg, s) && id in s.calls
    ensures var c, n := s.calls[id], Reservations(s.reserved, id);
            && c.started <= 1 && n <= 1
            && (c.started == 1 ==> n == 1)
            && (c.phase.AwaitingApprover? || c.phase.Answered? ==> n == 0)
            && (c.phase.Finished? && c.started == 0 ==> (n == 1 <==> UnrecordedAuthorization(c.phase.outcome)))
  {
    InvAt(cfg, s, id);
    PhaseOkReservations(cfg, s.calls[id], Reservations(s.reserved, id));
  }

  /** After a human approval, the call either runs under the very decision it was held for or is blocked by a budget. */
  lemma ApprovalCannotChangeTheRule(cfg: Config, s: State, id: nat)
    requires Reached(cfg, s) && id in s.calls && s.calls[id].phase.Reevaluated?
    ensures var phase := s.calls[id].phase;
            && phase.decision.kind == RequireApproval
            && phase.decision == RuleDecision(cfg.policy, s.calls[id].call, 0)
            && (phase.current == phase.decision || (phase.current.kind == Block && phase.current.ruleIndex == None))
  {
    hide RuleDecision;
    InvAt(cfg, s, id);
  }

  lemma {:induction false} DistinctReservations(reserved: seq<(nat, ToolCall)>, ids: set<nat>)
    requires forall id | id in ids :: Reservations(reserved, id) == 1
    ensures |ids| <= |reserved|
  {
    if reserved == [] {
      assert ids == {};
    } else {
      var last := reserved[|reserved| - 1].0;
      DistinctReservations(reserved[..|reserved| - 1], ids - {last});
    }
  }

  function Started(s: State): set<nat> { set id | id in s.calls && s.calls[id].started == 1 }

  lemma {:induction false} ReplayCounts(base: Usage, calls: seq<ToolCall>)
    ensures Replay(base, calls).toolCalls == base.toolCalls + |calls|
  {
    if calls != [] { ReplayCounts(base, calls[..|calls| - 1]); }
  }

  /**
   * From zero usage, the operations ever started never outnumber `tool_calls`, every cap holds, and the tables add up.
   */
  lemma CapsHoldInEveryRun(cfg: Config, s: State)
    requires cfg.base == NO_USAGE && Reached(cfg, s)
    ensures |Started(s)| <= s.usage.toolCalls
    ensures WithinCaps(cfg.policy, s.usage) && Consistent(s.usage)
    ensures cfg.policy.budget.maxCalls.Some? ==> |Started(s)| <= cfg.policy.budget.maxCalls.value
  {
    hide Replay, Admitted, RuleDecision, WithinCaps, Consistent;
    ReachedKeepsInv(cfg, s);
    InvKeepsCaps(cfg, s);
    DistinctReservations(s.reserved, Started(s));
    CallCap(cfg.policy, s.usage);
  }

  /**
   * In every run, capped or not, the stored cost differs from the exact sum of the reserved costs by at most one part
   * in 2 * 10^27 of the values the counter went through, and not at all while that sum has at most 28 digits.
   */
  lemma CostIsTrackedInEveryRun(cfg: Config, s: State, e: int)
    requires cfg.base == NO_USAGE && Reached(cfg, s)
    requires CostsAbove(CallsOf(s.reserved), e) && e <= 0
    ensures e <= s.usage.cost.exp
    ensures Precision2() * Distance(ExactCost(CallsOf(s.reserved), e), Units(s.usage.cost, e))
            <= CounterSum(CallsOf(s.reserved), e)
    ensures ExactCost(CallsOf(s.reserved), e) < Pow10(PRECISION) ==>
              Units(s.usage.cost, e) == ExactCost(CallsOf(s.reserved), e)
  {
    hide *;
    ReachedKeepsInv(cfg, s);
    UsageIsReplayed(cfg, s);
    StoredTracksExact(CallsOf(s.reserved), e);
    if ExactCost(CallsOf(s.reserved), e) < Pow10(PRECISION) { SmallSumsAreExact(CallsOf(s.reserved), e); }
  }

  /**
   * In every run the stored cost is within `max_cost_usd`, and it and the exact sum of the n reserved costs are at most
   * n parts in 2 * 10^27 of that apart.
   */
  lemma CostIsBoundedInEveryRun(cfg: Config, s: State, e: int)
    requires cfg.base == NO_USAGE && cfg.policy.budget.maxCost.Some? && Reached(cfg, s)
    requires CostsAbove(CallsOf(s.reserved), e) && e <= 0 && e <= cfg.policy.budget.maxCost.value.exp
    ensures !Exceeds(s.usage.cost, cfg.policy.budget.maxCost.value) && e <= s.usage.cost.exp
    ensures Precision2() * Distance(ExactCost(CallsOf(s.reserved), e), Units(s.usage.cost, e))
            <= |s.reserved| * Units(cfg.policy.budget.maxCost.value, e)
    ensures Precision2() * ExactCost(CallsOf(s.reserved), e)
            <= (Precision2() + |s.reserved|) * Units(cfg.policy.budget.maxCost.value, e)
  {
    hide *;
    ReachedKeepsInv(cfg, s);
    UsageIsReplayed(cfg, s);
    ExactCostIsBounded(cfg.policy, CallsOf(s.reserved), e);
  }

  lemma UsageIsReplayed(cfg: Config, s: State)
    requires Inv(cfg, s)
    ensures s.usage == Replay(cfg.base, CallsOf(s.reserved)) && Admitted(cfg.policy, cfg.base, CallsOf(s.reserved))
    ensures |CallsOf(s.reserved)| == |s.reserved|
  {
    hide Replay, Admitted, PhaseOk, Reservations;
  }

  lemma InvKeepsCaps(cfg: Config, s: State)
    requires cfg.base == NO_USAGE && Inv(cfg, s)
    ensures WithinCaps(cfg.policy, s.usage) && Consistent(s.usage)
    ensures s.usage.toolCalls == |s.reserved|
  {
    hide Replay, Admitted, RuleDecision, WithinCaps, Consistent, PhaseOk;
    NoUsageIsWithinCaps(cfg.policy);
    RunKeepsCaps(cfg.policy, NO_USAGE, CallsOf(s.reserved));
    ReplayCounts(NO_USAGE, CallsOf(s.reserved));
  }

  lemma CallCap(policy: Policy, usage: Usage)
    requires WithinCaps(policy, usage)
    ensures policy.budget.maxCalls.Some? ==> usage.toolCalls <= policy.budget.maxCalls.value
  {}

  // ---------------------------------------------------------------- event order

  /** The complete event sequences a call can leave. */
  const LIVES: set<seq<Event>> := {
    [Blocked],
    [Allowed, Executed],
    [Allowed, Failed],
    [ApprovalRequested, ApprovalDenied],
    [ApprovalRequested, Blocked],
    [ApprovalRequested, ApprovalGranted, Executed],
    [ApprovalRequested, ApprovalGranted, Failed]
  }

  ghost predicate PrefixOfALife(events: seq<Event>) { exists life | life in LIVES :: events <= life }

  lemma LifePrefix(events: seq<Event>, life: seq<Event>)
    requires life in LIVES && events <= life
    ensures PrefixOfALife(events)
  {}

  lemma OpeningIsPrefix(decision: Decision, tail: seq<Event>)
    requires tail == [] || tail == [Executed] || tail == [Failed]
    ensures PrefixOfALife(OpeningEvents(decision) + tail)
  {
    hide PrefixOfALife;
    var events := OpeningEvents(decision) + tail;
    var end := if tail == [Failed] then Failed else Executed;
    if decision.kind == RequireApproval {
      assert events <= [ApprovalRequested, ApprovalGranted, end];
      LifePrefix(events, [ApprovalRequested, ApprovalGranted, end]);
    } else {
      assert events <= [Allowed, end];
      LifePrefix(events, [Allowed, end]);
    }
  }

  lemma PhaseOkIsPrefix(cfg: Config, c: Call, n: nat)
    requires PhaseOk(cfg, c, n)
    ensures PrefixOfALife(c.events)
  {
    hide PrefixOfALife, RuleDecision;
    var rules := RuleDecision(cfg.policy, c.call, 0);
    OpeningIsPrefix(rules, []);
    OpeningIsPrefix(rules, [Executed]);
    OpeningIsPrefix(rules, [Failed]);
    assert OpeningEvents(rules) + [] == OpeningEvents(rules);
    if |c.events| <= 1 && (c.events == [] || c.events[0] == Blocked) {
      LifePrefix(c.events, [Blocked]);
    } else if c.events == [ApprovalRequested] {
      LifePrefix(c.events, [ApprovalRequested, Blocked]);
    } else if c.phase.Finished? && c.phase.outcome.CallBlocked? {
      LifePrefix(c.events, c.events);
    }
  }

  lemma PhaseOkTrail(cfg: Config, c: Call, n: nat)
    requires PhaseOk(cfg, c, n)
    ensures cfg.auditing && c.started > 0 ==> Allowed in c.events || ApprovalGranted in c.events
    ensures c.phase.Finished? && c.phase.outcome.AuditFailed? ==> (c.phase.outcome.afterExecution <==> c.started > 0)
    ensures cfg.auditing && c.phase == Finished(Returned) ==> Executed in c.events
    ensures cfg.auditing && c.phase == Finished(OperationRaised) ==> Failed in c.events
  {
    hide RuleDecision;
  }

  /** The audit trail of every call, at every moment of every run. */
  lemma AuditTrail(cfg: Config, s: State, id: nat)
    requires Reached(cfg, s) && id in s.calls
    ensures var c := s.calls[id];
            && PrefixOfALife(c.events)
            && (cfg.auditing && c.started > 0 ==> Allowed in c.events || ApprovalGranted in c.events)
            && (c.phase.Finished? && c.phase.outcome.AuditFailed? ==>
                  (c.phase.outcome.afterExecution <==> c.started > 0))
            && (cfg.auditing && c.phase == Finished(Returned) ==> Executed in c.events)
            && (cfg.auditing && c.phase == Finished(OperationRaised) ==> Failed in c.events)
  {
    hide PhaseOk, PrefixOfALife;
    InvAt(cfg, s, id);
    PhaseOkIsPrefix(cfg, s.calls[id], Reservations(s.reserved, id));
    PhaseOkTrail(cfg, s.calls[id], Reservations(s.reserved, id));
  }

  // ---------------------------------------------------------------- what a started operation presupposes

  /** The policy's word lets the operation start: it allows the call, or asks for an approval that a human has given. */
  predicate Lets(cfg: Config, kind: DecisionKind, approved: bool)
  {
    kind == Allow || (kind == RequireApproval && cfg.hasApprover && approved)
  }

  /** Past the point at which nothing but the store and the log can stop the call. */
  predicate MayStart(c: Call)
  {
    c.started > 0 || c.phase.Ready? || c.phase.Operating? || c.phase.Operated?
  }

  predicate Heard(c: Call) { c.phase.Answered? || c.phase.Reevaluated? }

  predicate ApprovedIn(schedule: seq<(nat, Action)>, id: nat) { (id, HumanAnswers(true)) in schedule }

  predicate CallPermitted(cfg: Config, c: Call, approved: bool)
  {
    && (MayStart(c) ==> Lets(cfg, RuleDecision(cfg.policy, c.call, 0).kind, approved))
    && (c.phase.AwaitingApprover? || Heard(c) ==> cfg.hasApprover)
    && ((c.phase.Answered? && c.phase.approved) || c.phase.Reevaluated? ==> approved)
  }

  /** The call is on record as ended this way, or ended so and could not be put on record. */
  predicate SaysEnded(c: Call, ok: bool)
  {
    var event := if ok then Executed else Failed;
    || event in c.events || c.phase == Finished(AuditFailed(event, true))
    || c.phase == Finished(if ok then Returned else OperationRaised)
  }

  predicate EndedIn(schedule: seq<(nat, Action)>, id: nat, ok: bool) { (id, Ends(ok)) in schedule }

  predicate CallJudged(c: Call, ok: bool, ended: bool)
  {
    SaysEnded(c, ok) || (c.phase.Operated? && c.phase.ok == ok) ==> ended
  }

  ghost predicate AllPermitted(cfg: Config, s: State, done: seq<(nat, Action)>)
  {
    forall id | id in s.calls ::
      && CallPermitted(cfg, s.calls[id], ApprovedIn(done, id))
      && forall ok :: CallJudged(s.calls[id], ok, EndedIn(done, id, ok))
  }

  lemma StepPermitted(cfg: Config, s: State, id: nat, a: Action, before: bool)
    requires Inv(cfg, s) && Enabled(s, id, a)
    requires id in s.calls ==> CallPermitted(cfg, s.calls[id], before)
    ensures id in Next(cfg, s, id, a).calls
    ensures CallPermitted(cfg, Next(cfg, s, id, a).calls[id], before || a == HumanAnswers(true))
  {
    hide Inv, RuleDecision, Evaluate, Reservations, AuditedEvent;
    if id in s.calls { PhaseOkOf(cfg, s, id); }
  }

  lemma StepJudged(cfg: Config, s: State, id: nat, a: Action, ok: bool, before: bool)
    requires Enabled(s, id, a) && (id in s.calls ==> CallJudged(s.calls[id], ok, before))
    ensures id in Next(cfg, s, id, a).calls
    ensures CallJudged(Next(cfg, s, id, a).calls[id], ok, before || a == Ends(ok))
  {
    hide RuleDecision, Evaluate;
  }

  lemma StepKeepsPermitted(cfg: Config, s: State, id: nat, a: Action, done: seq<(nat, Action)>)
    requires Inv(cfg, s) && Enabled(s, id, a) && AllPermitted(cfg, s, done)
    ensures AllPermitted(cfg, Next(cfg, s, id, a), done + [(id, a)])
  {
    hide Inv, CallPermitted, CallJudged, Enabled, Next;
    StepPermitted(cfg, s, id, a, ApprovedIn(done, id));
    StepJudged(cfg, s, id, a, true, EndedIn(done, id, true));
    StepJudged(cfg, s, id, a, false, EndedIn(done, id, false));
    OthersUntouched(cfg, s, id, a);
    var t, later := Next(cfg, s, id, a), done + [(id, a)];
    forall other | other in t.calls
      ensures CallPermitted(cfg, t.calls[other], ApprovedIn(later, other))
      ensures forall ok :: CallJudged(t.calls[other], ok, EndedIn(later, other, ok))
    {
      assert ApprovedIn(later, other) <==> ApprovedIn(done, other) || (other == id && a == HumanAnswers(true));
      forall ok ensures EndedIn(later, other, ok) <==> EndedIn(done, other, ok) || (other == id && a == Ends(ok)) {}
    }
  }

  lemma OthersUntouched(cfg: Config, s: State, id: nat, a: Action)
    requires Enabled(s, id, a)
    ensures var t := Next(cfg, s, id, a);
            && (forall other | other != id :: other in t.calls <==> other in s.calls)
            && (forall other | other != id && other in s.calls :: t.calls[other] == s.calls[other])
  {
    hide Evaluate, AuditedCall;
  }

  lemma {:induction false} RunPermitted(cfg: Config, s: State, schedule: seq<(nat, Action)>, done: seq<(nat, Action)>)
    requires Inv(cfg, s) && AllPermitted(cfg, s, done) && Run(cfg, s, schedule).Some?
    ensures AllPermitted(cfg, Run(cfg, s, schedule).value, done + schedule)
    decreases |schedule|
  {
    hide Inv, AllPermitted, Enabled, Next, Run;
    NoMoreSteps(cfg, s, schedule, done);
    if schedule != [] {
      var (id, a) := schedule[0];
      StepKeepsPermitted(cfg, s, id, a, done);
      NextKeepsInv(cfg, s, id, a);
      RunPermitted(cfg, Next(cfg, s, id, a), schedule[1..], done + [(id, a)]);
    }
  }

  lemma NoMoreSteps(cfg: Config, s: State, schedule: seq<(nat, Action)>, done: seq<(nat, Action)>)
    requires Run(cfg, s, schedule).Some?
    ensures schedule == [] ==> Run(cfg, s, schedule) == Some(s) && done + schedule == done
    ensures schedule != [] ==>
              var (id, a) := schedule[0];
              && Enabled(s, id, a)
              && Run(cfg, s, schedule) == Run(cfg, Next(cfg, s, id, a), schedule[1..])
              && done + [(id, a)] + schedule[1..] == done + schedule
  {
    hide Enabled, Next;
  }

  lemma NothingCalledYet(cfg: Config)
    ensures Inv(cfg, Initial(cfg)) && Initial(cfg).calls == map[]
  {}

  /**
   * In every run an operation that has started was let by the first rule that matches its call, or by the policy's
   * default where none does: allowed, or held for an approval that its human gave. Nothing blocked ever starts.
   */
  lemma StartedMeansPermitted(cfg: Config, schedule: seq<(nat, Action)>, id: nat)
    requires Run(cfg, Initial(cfg), schedule).Some?
    requires var s := Run(cfg, Initial(cfg), schedule).value; id in s.calls && s.calls[id].started > 0
    ensures var call, approved := Run(cfg, Initial(cfg), schedule).value.calls[id].call, ApprovedIn(schedule, id);
            && (forall i: nat | IsFirstMatch(cfg.policy, call, i) :: Lets(cfg, cfg.policy.rules[i].decision, approved))
            && (NoneMatches(cfg.policy, call) ==> Lets(cfg, cfg.policy.defaultDecision, approved))
  {
    hide Inv, Run, RuleDecision, IsFirstMatch, NoneMatches;
    NothingCalledYet(cfg);
    RunPermitted(cfg, Initial(cfg), schedule, []);
    assert [] + schedule == schedule;
    var s := Run(cfg, Initial(cfg), schedule).value;
    assert CallPermitted(cfg, s.calls[id], ApprovedIn(schedule, id));
    RulesAnswer(cfg.policy, s.calls[id].call, 0);
  }

  /** And in every run a call is on record as executed, or as failed, only if its operation did end that way. */
  lemma RecordedAsItEnded(cfg: Config, schedule: seq<(nat, Action)>, id: nat, ok: bool)
    requires Run(cfg, Initial(cfg), schedule).Some?
    requires var s := Run(cfg, Initial(cfg), schedule).value; id in s.calls && SaysEnded(s.calls[id], ok)
    ensures EndedIn(schedule, id, ok)
  {
    hide Inv, Run, CallPermitted, SaysEnded;
    NothingCalledYet(cfg);
    RunPermitted(cfg, Initial(cfg), schedule, []);
    assert [] + schedule == schedule;
    assert CallJudged(Run(cfg, Initial(cfg), schedule).value.calls[id], ok, EndedIn(schedule, id, ok));
  }

  /** Nothing is taken back: calls, recorded events, reservations and starts only grow. */
  predicate Extends(s: State, t: State)
  {
    && s.reserved <= t.reserved
    && forall id | id in s.calls ::
         && id in t.calls
         && t.calls[id].call == s.calls[id].call
         && s.calls[id].events <= t.calls[id].events
         && s.calls[id].started <= t.calls[id].started
         && (s.calls[id].phase.Finished? ==> t.calls[id] == s.calls[id])
  }

  lemma NextExtends(cfg: Config, s: State, id: nat, a: Action)
    requires Enabled(s, id, a)
    ensures Extends(s, Next(cfg, s, id, a))
  {
    hide AuditedCall, EvaluateAndReserve;
    match a
    case Evaluates(storeOk) => EvaluationExtends(cfg, s, id, storeOk);
    case Audits(outcome) => AuditedExtends(cfg, s.calls[id], outcome);
    case _ =>
  }

  lemma EvaluationExtends(cfg: Config, s: State, id: nat, storeOk: bool)
    requires id in s.calls && MayEvaluate(s.calls[id].phase)
    ensures Extends(s, EvaluateAndReserve(cfg, s, id, storeOk))
  {
    hide Evaluate;
  }

  lemma AuditedExtends(cfg: Config, c: Call, outcome: AuditOutcome)
    requires MayAudit(c.phase) && (outcome == UsageUnreadable ==> ReadsUsage(c.phase))
    ensures var d := AuditedCall(cfg, c, outcome); d.call == c.call && c.events <= d.events && d.started == c.started
  {}

  lemma {:induction false} RunExtends(cfg: Config, s: State, schedule: seq<(nat, Action)>)
    requires Run(cfg, s, schedule).Some?
    ensures Extends(s, Run(cfg, s, schedule).value)
    decreases |schedule|
  {
    if schedule != [] {
      var t := Next(cfg, s, schedule[0].0, schedule[0].1);
      NextExtends(cfg, s, schedule[0].0, schedule[0].1);
      RunExtends(cfg, t, schedule[1..]);
      ExtendsTransitive(s, t, Run(cfg, s, schedule).value);
    }
  }

  lemma ExtendsTransitive(s: State, t: State, u: State)
    requires Extends(s, t) && Extends(t, u)
    ensures Extends(s, u)
  {}
}
