/** The guarded-call lifecycle: authorize, reserve, wait for a human, re-evaluate, execute, audit. */
module Firewalls {
  import opened Json
  import opened Decimals
  import opened Policies
  import opened Budgets

  datatype Event = Blocked | Allowed | ApprovalRequested | ApprovalDenied | ApprovalGranted | Executed | Failed

  // What the audit log answers; the usage it should report may itself be unreadable.
  datatype AuditOutcome = Recorded | WriteFailed | UsageUnreadable

  datatype Outcome =
    | Returned
    | OperationRaised
    | CallBlocked(decision: Decision)
    | NoApprover(decision: Decision)
    | ApproverRaised
    | StorageFailed
    | AuditFailed(event: Event, afterExecution: bool)

  // The points at which another caller, a human or the operation itself can run.
  datatype Phase =
    | Fresh
    | Evaluated(decision: Decision)
    | AwaitingApprover(decision: Decision)
    | Answered(decision: Decision, approved: bool)
    | Reevaluated(decision: Decision, current: Decision)
    | Ready(decision: Decision)
    | Operating(decision: Decision)
    | Operated(decision: Decision, ok: bool)
    | Finished(outcome: Outcome)

  datatype Call = Call(call: ToolCall, phase: Phase, events: seq<Event>, started: nat)

  // `base` is the usage the store held when the firewall came up.
  datatype Config = Config(policy: Policy, auditing: bool, hasApprover: bool, base: Usage)

  // `reserved` lists every reservation ever taken, with the call that took it.
  datatype State = State(usage: Usage, reserved: seq<(nat, ToolCall)>, calls: map<nat, Call>)
  {
    predicate At(id: nat, phase: Phase) { id in calls && calls[id].phase == phase }
  }

  function Initial(cfg: Config): State { State(cfg.base, [], map[]) }

  // ---------------------------------------------------------------- steps

  function Moved(s: State, id: nat, phase: Phase): State
    requires id in s.calls
  {
    s.(calls := s.calls[id := s.calls[id].(phase := phase)])
  }

  function Create(s: State, id: nat, call: ToolCall): State
  {
    s.(calls := s.calls[id := Call(call, Fresh, [], 0)])
  }

  predicate MayEvaluate(phase: Phase) { phase.Fresh? || (phase.Answered? && phase.approved) }

  function EvaluatedCall(c: Call, decision: Decision): Call
    requires MayEvaluate(c.phase)
  {
    c.(phase := if c.phase.Fresh? then Evaluated(decision) else Reevaluated(c.phase.decision, decision))
  }

  /** One store transaction: evaluate against the shared usage and, when the decision says so, reserve. */
  function EvaluateAndReserve(cfg: Config, s: State, id: nat, storeOk: bool): State
    requires id in s.calls && MayEvaluate(s.calls[id].phase)
  {
    var c := s.calls[id];
    if !storeOk then Moved(s, id, Finished(StorageFailed))
    else
      var decision := Evaluate(cfg.policy, c.call, s.usage);
      var moved := s.(calls := s.calls[id := EvaluatedCall(c, decision)]);
      if decision.ReservesUsage(c.phase.Answered?) then
        moved.(usage := s.usage.Recorded(c.call), reserved := s.reserved + [(id, c.call)])
      else moved
  }

  predicate MayAudit(phase: Phase)
  {
    phase.Evaluated? || phase.Reevaluated? || phase.Operated? || (phase.Answered? && !phase.approved)
  }

  function AuditedEvent(phase: Phase): Event
    requires MayAudit(phase)
  {
    match phase
    case Evaluated(d) =>
      if d.kind == Block then Blocked else if d.kind == RequireApproval then ApprovalRequested else Allowed
    case Answered(_, _) => ApprovalDenied
    case Reevaluated(_, current) => if current.kind == Block then Blocked else ApprovalGranted
    case Operated(_, ok) => if ok then Executed else Failed
  }

  function Denial(decision: Decision): Decision
  {
    Decision(Block, "human approval denied", "approval_denied", decision.ruleIndex)
  }

  function AfterAudit(cfg: Config, phase: Phase): Phase
    requires MayAudit(phase)
  {
    match phase
    case Evaluated(d) =>
      if d.kind == Block then Finished(CallBlocked(d))
      else if d.kind == Allow then Ready(d)
      else if cfg.hasApprover then AwaitingApprover(d)
      else Finished(NoApprover(d))
    case Answered(d, _) => Finished(CallBlocked(Denial(d)))
    case Reevaluated(d, current) => if current.kind == Block then Finished(CallBlocked(current)) else Ready(d)
    case Operated(_, ok) => Finished(if ok then Returned else OperationRaised)
  }

  /** The evaluations hand their usage to the log; the denial and the terminal events make it read the store. */
  predicate ReadsUsage(phase: Phase) { phase.Answered? || phase.Operated? }

  /** Recording one event; without a log nothing is recorded and nothing can fail. */
  function AuditedCall(cfg: Config, c: Call, outcome: AuditOutcome): Call
    requires MayAudit(c.phase)
    requires outcome == UsageUnreadable ==> ReadsUsage(c.phase)
  {
    var event := AuditedEvent(c.phase);
    if !cfg.auditing then c.(phase := AfterAudit(cfg, c.phase))
    else if outcome == Recorded then c.(phase := AfterAudit(cfg, c.phase), events := c.events + [event])
    else if c.phase.Operated? then c.(phase := Finished(AuditFailed(event, true)))
    else if outcome == UsageUnreadable then c.(phase := Finished(StorageFailed))
    else c.(phase := Finished(AuditFailed(event, false)))
  }

  function Audit(cfg: Config, s: State, id: nat, outcome: AuditOutcome): State
    requires id in s.calls && MayAudit(s.calls[id].phase)
    requires outcome == UsageUnreadable ==> ReadsUsage(s.calls[id].phase)
  {
    s.(calls := s.calls[id := AuditedCall(cfg, s.calls[id], outcome)])
  }

  function Answer(s: State, id: nat, approved: bool): State
    requires id in s.calls && s.calls[id].phase.AwaitingApprover?
  {
    Moved(s, id, Answered(s.calls[id].phase.decision, approved))
  }

  function ApproverRaises(s: State, id: nat): State
    requires id in s.calls && s.calls[id].phase.AwaitingApprover?
  {
    Moved(s, id, Finished(ApproverRaised))
  }

  function Start(s: State, id: nat): State
    requires id in s.calls && s.calls[id].phase.Ready?
  {
    var c := s.calls[id];
    s.(calls := s.calls[id := c.(phase := Operating(c.phase.decision), started := c.started + 1)])
  }

  function EndOperation(s: State, id: nat, ok: bool): State
    requires id in s.calls && s.calls[id].phase.Operating?
  {
    Moved(s, id, Operated(s.calls[id].phase.decision, ok))
  }

  predicate IsSettled(phase: Phase) { phase.Ready? || phase.AwaitingApprover? || phase.Finished? }

  function WriteOutcome(recorded: bool): AuditOutcome { if recorded then Recorded else WriteFailed }

  /** One store transaction and, unless it failed, the audit of what it decided. */
  function EvaluateAndAudit(cfg: Config, s: State, id: nat, storeOk: bool, recorded: bool): (r: State)
    requires id in s.calls && MayEvaluate(s.calls[id].phase)
    ensures id in r.calls && IsSettled(r.calls[id].phase)
  {
    var t := EvaluateAndReserve(cfg, s, id, storeOk);
    if storeOk then Audit(cfg, t, id, WriteOutcome(recorded)) else t
  }

  /** What a human's answer leads to: the denial is audited, an approval is re-evaluated. */
  function FinishApproval(cfg: Config, s: State, id: nat, approved: bool, storeOk: bool, recorded: bool,
      denial: AuditOutcome): (r: State)
    requires id in s.calls && s.calls[id].phase.AwaitingApprover?
    ensures id in r.calls && IsSettled(r.calls[id].phase)
  {
    if approved then EvaluateAndAudit(cfg, Answer(s, id, true), id, storeOk, recorded)
    else Audit(cfg, Answer(s, id, false), id, denial)
  }

  // ---------------------------------------------------------------- what every step keeps

  function Reservations(reserved: seq<(nat, ToolCall)>, id: nat): nat
  {
    if reserved == [] then 0
    else Reservations(reserved[..|reserved| - 1], id) + if reserved[|reserved| - 1].0 == id then 1 else 0
  }

  function CallsOf(reserved: seq<(nat, ToolCall)>): seq<ToolCall>
  {
    seq(|reserved|, i requires 0 <= i < |reserved| => reserved[i].1)
  }

  function Logged(cfg: Config, events: seq<Event>): seq<Event> { if cfg.auditing then events else [] }

  function OpeningEvents(decision: Decision): seq<Event>
  {
    if decision.kind == RequireApproval then [ApprovalRequested, ApprovalGranted] else [Allowed]
  }

  /** The decision a call is held for or runs under is the rules' own, not a budget block. */
  predicate RulesSaid(cfg: Config, call: ToolCall, decision: Decision)
  {
    decision == RuleDecision(cfg.policy, call, 0) && decision.kind != Block
  }

  /** What is known at each point of one call's life: events recorded, reservations taken, operations started. */
  predicate PhaseOk(cfg: Config, c: Call, reservations: nat)
  {
    var requested := Logged(cfg, [ApprovalRequested]);
    match c.phase
    case Fresh => c.events == [] && reservations == 0 && c.started == 0
    case Evaluated(d) =>
      && c.events == [] && c.started == 0
      && reservations == (if d.kind == Allow then 1 else 0)
      && (d.kind != Block ==> RulesSaid(cfg, c.call, d))
    case AwaitingApprover(d) =>
      c.events == requested && reservations == 0 && c.started == 0 && RulesSaid(cfg, c.call, d)
          && d.kind == RequireApproval
    case Answered(d, _) =>
      c.events == requested && reservations == 0 && c.started == 0 && RulesSaid(cfg, c.call, d)
          && d.kind == RequireApproval
    case Reevaluated(d, current) =>
      && c.events == requested && c.started == 0
      && RulesSaid(cfg, c.call, d) && d.kind == RequireApproval
      && reservations == (if current.kind == Block then 0 else 1)
      && (current == d || (current.kind == Block && current.ruleIndex == None))
    case Ready(d) =>
      c.events == Logged(cfg, OpeningEvents(d)) && reservations == 1 && c.started == 0 && RulesSaid(cfg, c.call, d)
    case Operating(d) =>
      c.events == Logged(cfg, OpeningEvents(d)) && reservations == 1 && c.started == 1 && RulesSaid(cfg, c.call, d)
    case Operated(d, _) =>
      c.events == Logged(cfg, OpeningEvents(d)) && reservations == 1 && c.started == 1 && RulesSaid(cfg, c.call, d)
    case Finished(outcome) => OutcomeOk(cfg, c, outcome, reservations)
  }

  predicate OutcomeOk(cfg: Config, c: Call, outcome: Outcome, reservations: nat)
  {
    var rules := RuleDecision(cfg.policy, c.call, 0);
    match outcome
    case Returned =>
      c.events == Logged(cfg, OpeningEvents(rules) + [Executed]) && reservations == 1 && c.started == 1
    case OperationRaised =>
      c.events == Logged(cfg, OpeningEvents(rules) + [Failed]) && reservations == 1 && c.started == 1
    case CallBlocked(d) =>
      && reservations == 0 && c.started == 0 && d.kind == Block
      && (|| c.events == Logged(cfg, [Blocked])
          || (rules.kind == RequireApproval && c.events == Logged(cfg, [ApprovalRequested, ApprovalDenied]))
          || (rules.kind == RequireApproval && c.events == Logged(cfg, [ApprovalRequested, Blocked])))
    case NoApprover(d) =>
      c.events == Logged(cfg, [ApprovalRequested]) && reservations == 0 && c.started == 0 && !cfg.hasApprover
          && d == rules
    case ApproverRaised =>
      c.events == Logged(cfg, [ApprovalRequested]) && reservations == 0 && c.started == 0
    case StorageFailed =>
      (c.events == [] || c.events == [ApprovalRequested]) && reservations == 0 && c.started == 0
    case AuditFailed(event, after) =>
      && cfg.auditing
      && c.started == (if after then 1 else 0)
      && (after ==> event in {Executed, Failed} && reservations == 1 && c.events == OpeningEvents(rules))
      && (!after ==>
            && event !in {Executed, Failed}
            && reservations == (if event in {Allowed, ApprovalGranted} then 1 else 0)
            && (c.events == [] || c.events == [ApprovalRequested])
            && (event in {Blocked, Allowed, ApprovalRequested} || c.events == [ApprovalRequested])
            && (event in {Blocked, ApprovalDenied, ApprovalGranted} || c.events == []))
  }

  ghost predicate Inv(cfg: Config, s: State)
  {
    && s.usage == Replay(cfg.base, CallsOf(s.reserved))
    && Admitted(cfg.policy, cfg.base, CallsOf(s.reserved))
    && (forall i | 0 <= i < |s.reserved| :: s.reserved[i].0 in s.calls
          && s.calls[s.reserved[i].0].call == s.reserved[i].1)
    && (forall id | id in s.calls :: PhaseOk(cfg, s.calls[id], Reservations(s.reserved, id)))
  }

  lemma {:induction false} ReservationsOfStranger(reserved: seq<(nat, ToolCall)>, id: nat)
    requires forall i | 0 <= i < |reserved| :: reserved[i].0 != id
    ensures Reservations(reserved, id) == 0
  {
    if reserved != [] { ReservationsOfStranger(reserved[..|reserved| - 1], id); }
  }

  lemma CreateKeepsInv(cfg: Config, s: State, id: nat, call: ToolCall)
    requires Inv(cfg, s) && id !in s.calls
    ensures Inv(cfg, Create(s, id, call))
  {
    hide PhaseOk, Replay, Admitted, Reservations, CallsOf;
    ReservationsOfStranger(s.reserved, id);
    FreshCallOk(cfg, call);
  }

  lemma FreshCallOk(cfg: Config, call: ToolCall)
    ensures PhaseOk(cfg, Call(call, Fresh, [], 0), 0)
  {}

  lemma MovedKeepsInv(cfg: Config, s: State, id: nat, c: Call)
    requires Inv(cfg, s) && id in s.calls
    requires c.call == s.calls[id].call
    requires PhaseOk(cfg, c, Reservations(s.reserved, id))
    ensures Inv(cfg, s.(calls := s.calls[id := c]))
  {
    hide PhaseOk, Replay, Admitted, Reservations, CallsOf;
  }

  lemma PhaseOkOf(cfg: Config, s: State, id: nat)
    requires Inv(cfg, s) && id in s.calls
    ensures PhaseOk(cfg, s.calls[id], Reservations(s.reserved, id))
  {
    hide PhaseOk, Replay, Admitted, Reservations, CallsOf;
  }

  /** The moves that neither reserve nor record anything. */
  lemma MovesOk(cfg: Config, c: Call, reservations: nat)
    requires PhaseOk(cfg, c, reservations)
    ensures MayEvaluate(c.phase) ==> PhaseOk(cfg, c.(phase := Finished(StorageFailed)), reservations)
    ensures c.phase.AwaitingApprover? ==>
              && PhaseOk(cfg, c.(phase := Finished(ApproverRaised)), reservations)
              && forall approved :: PhaseOk(cfg, c.(phase := Answered(c.phase.decision, approved)), reservations)
    ensures c.phase.Ready? ==>
              PhaseOk(cfg, c.(phase := Operating(c.phase.decision), started := c.started + 1), reservations)
    ensures c.phase.Operating? ==> forall ok :: PhaseOk(cfg, c.(phase := Operated(c.phase.decision, ok)), reservations)
  {
    hide RuleDecision;
  }

  lemma AnswerKeepsInv(cfg: Config, s: State, id: nat, approved: bool)
    requires Inv(cfg, s) && id in s.calls && s.calls[id].phase.AwaitingApprover?
    ensures Inv(cfg, Answer(s, id, approved))
  {
    hide Inv, PhaseOk, Reservations;
    PhaseOkOf(cfg, s, id);
    MovesOk(cfg, s.calls[id], Reservations(s.reserved, id));
    MovedKeepsInv(cfg, s, id, s.calls[id].(phase := Answered(s.calls[id].phase.decision, approved)));
  }

  lemma ApproverRaisesKeepsInv(cfg: Config, s: State, id: nat)
    requires Inv(cfg, s) && id in s.calls && s.calls[id].phase.AwaitingApprover?
    ensures Inv(cfg, ApproverRaises(s, id))
  {
    hide Inv, PhaseOk, Reservations;
    PhaseOkOf(cfg, s, id);
    MovesOk(cfg, s.calls[id], Reservations(s.reserved, id));
    MovedKeepsInv(cfg, s, id, s.calls[id].(phase := Finished(ApproverRaised)));
  }

  lemma StartKeepsInv(cfg: Config, s: State, id: nat)
    requires Inv(cfg, s) && id in s.calls && s.calls[id].phase.Ready?
    ensures Inv(cfg, Start(s, id))
  {
    hide Inv, PhaseOk, Reservations;
    PhaseOkOf(cfg, s, id);
    MovesOk(cfg, s.calls[id], Reservations(s.reserved, id));
    MovedKeepsInv(cfg, s, id, Start(s, id).calls[id]);
  }

  lemma EndKeepsInv(cfg: Config, s: State, id: nat, ok: bool)
    requires Inv(cfg, s) && id in s.calls && s.calls[id].phase.Operating?
    ensures Inv(cfg, EndOperation(s, id, ok))
  {
    hide Inv, PhaseOk, Reservations;
    PhaseOkOf(cfg, s, id);
    MovesOk(cfg, s.calls[id], Reservations(s.reserved, id));
    MovedKeepsInv(cfg, s, id, s.calls[id].(phase := Operated(s.calls[id].phase.decision, ok)));
  }

  lemma EvaluatedCallOk(cfg: Config, c: Call, usage: Usage, reservations: nat)
    requires MayEvaluate(c.phase) && PhaseOk(cfg, c, reservations)
    ensures var decision := Evaluate(cfg.policy, c.call, usage);
            var taken := decision.ReservesUsage(c.phase.Answered?);
            && PhaseOk(cfg, EvaluatedCall(c, decision), reservations + if taken then 1 else 0)
            && (taken ==> BudgetDecision(cfg.policy, c.call, usage) == None)
  {
    hide RuleDecision, BudgetDecision, Evaluate, OutcomeOk;
    SecondEvaluation(cfg.policy, c.call, usage);
  }

  lemma EvaluateMoves(cfg: Config, s: State, id: nat)
    requires id in s.calls && MayEvaluate(s.calls[id].phase)
    ensures var c := s.calls[id];
            var decision := Evaluate(cfg.policy, c.call, s.usage);
            var moved := EvaluatedCall(c, decision);
            && moved.call == c.call
            && EvaluateAndReserve(cfg, s, id, true)
               == if decision.ReservesUsage(c.phase.Answered?) then
                    s.(usage := s.usage.Recorded(c.call), reserved := s.reserved + [(id, c.call)],
                        calls := s.calls[id := moved])
                  else s.(calls := s.calls[id := moved])
  {
    hide Evaluate;
  }

  lemma EvaluateKeepsInv(cfg: Config, s: State, id: nat, storeOk: bool)
    requires Inv(cfg, s) && id in s.calls && MayEvaluate(s.calls[id].phase)
    ensures Inv(cfg, EvaluateAndReserve(cfg, s, id, storeOk))
  {
    hide *;
    PhaseOkOf(cfg, s, id);
    if storeOk {
      DecideKeepsInv(cfg, s, id);
    } else {
      StoreFailureKeepsInv(cfg, s, id);
    }
  }

  lemma StoreFailureKeepsInv(cfg: Config, s: State, id: nat)
    requires Inv(cfg, s) && id in s.calls && MayEvaluate(s.calls[id].phase)
    requires PhaseOk(cfg, s.calls[id], Reservations(s.reserved, id))
    ensures Inv(cfg, EvaluateAndReserve(cfg, s, id, false))
  {
    hide Inv, PhaseOk, Reservations, Evaluate;
    MovesOk(cfg, s.calls[id], Reservations(s.reserved, id));
    MovedKeepsInv(cfg, s, id, s.calls[id].(phase := Finished(StorageFailed)));
  }

  lemma DecideKeepsInv(cfg: Config, s: State, id: nat)
    requires Inv(cfg, s) && id in s.calls && MayEvaluate(s.calls[id].phase)
    requires PhaseOk(cfg, s.calls[id], Reservations(s.reserved, id))
    ensures Inv(cfg, EvaluateAndReserve(cfg, s, id, true))
  {
    hide *;
    EvaluateMoves(cfg, s, id);
    var c := s.calls[id];
    var decision := Evaluate(cfg.policy, c.call, s.usage);
    EvaluatedCallOk(cfg, c, s.usage, Reservations(s.reserved, id));
    if decision.ReservesUsage(c.phase.Answered?) {
      ReserveKeepsInv(cfg, s, id, EvaluatedCall(c, decision));
    } else {
      MovedKeepsInv(cfg, s, id, EvaluatedCall(c, decision));
    }
  }

  lemma CallsOfAppend(reserved: seq<(nat, ToolCall)>, id: nat, call: ToolCall)
    ensures CallsOf(reserved + [(id, call)]) == CallsOf(reserved) + [call]
    ensures forall k :: Reservations(reserved + [(id, call)], k) == Reservations(reserved, k) + if k == id then 1 else 0
  {
    assert (reserved + [(id, call)])[..|reserved|] == reserved;
  }

  lemma AdmitOne(policy: Policy, base: Usage, calls: seq<ToolCall>, call: ToolCall)
    requires Admitted(policy, base, calls)
    requires BudgetDecision(policy, call, Replay(base, calls)) == None
    ensures Admitted(policy, base, calls + [call])
    ensures Replay(base, calls + [call]) == Replay(base, calls).Recorded(call)
  {
    hide BudgetDecision;
    var after := calls + [call];
    assert after[..|calls|] == calls;
    forall i | 0 <= i < |after| ensures BudgetDecision(policy, after[i], Replay(base, after[..i])) == None {
      if i < |calls| { assert after[..i] == calls[..i]; }
    }
  }

  lemma ReserveKeepsInv(cfg: Config, s: State, id: nat, c: Call)
    requires Inv(cfg, s) && id in s.calls
    requires c.call == s.calls[id].call
    requires BudgetDecision(cfg.policy, c.call, s.usage) == None
    requires PhaseOk(cfg, c, Reservations(s.reserved, id) + 1)
    ensures Inv(cfg,
            s.(usage := s.usage.Recorded(c.call), reserved := s.reserved + [(id, c.call)], calls := s.calls[id := c]))
  {
    hide BudgetDecision, PhaseOk, Replay, Admitted, Reservations, CallsOf;
    CallsOfAppend(s.reserved, id, c.call);
    AdmitOne(cfg.policy, cfg.base, CallsOf(s.reserved), c.call);
  }

  lemma AuditedCallOk(cfg: Config, c: Call, outcome: AuditOutcome, reservations: nat)
    requires MayAudit(c.phase) && PhaseOk(cfg, c, reservations)
    requires outcome == UsageUnreadable ==> ReadsUsage(c.phase)
    ensures PhaseOk(cfg, AuditedCall(cfg, c, outcome), reservations)
  {
    hide RuleDecision;
  }

  lemma AuditedSameCall(cfg: Config, c: Call, outcome: AuditOutcome)
    requires MayAudit(c.phase)
    requires outcome == UsageUnreadable ==> ReadsUsage(c.phase)
    ensures AuditedCall(cfg, c, outcome).call == c.call
  {}

  lemma AuditKeepsInv(cfg: Config, s: State, id: nat, outcome: AuditOutcome)
    requires Inv(cfg, s) && id in s.calls && MayAudit(s.calls[id].phase)
    requires outcome == UsageUnreadable ==> ReadsUsage(s.calls[id].phase)
    ensures Inv(cfg, Audit(cfg, s, id, outcome))
  {
    hide Inv, PhaseOk, Reservations, AuditedCall;
    PhaseOkOf(cfg, s, id);
    AuditedCallOk(cfg, s.calls[id], outcome, Reservations(s.reserved, id));
    AuditedSameCall(cfg, s.calls[id], outcome);
    MovedKeepsInv(cfg, s, id, AuditedCall(cfg, s.calls[id], outcome));
  }
}
