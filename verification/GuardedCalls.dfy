/** The firewall object: its methods carry out the lifecycle on a shared store, one stretch at a time. */
module GuardedCalls {
  import opened Json
  import opened Decimals
  import opened Policies
  import opened Firewalls
  import StateStores
  import FirewallRuns

  // Everything outside the firewall that one guarded call depends on.
  datatype World = World(
    storeOk: bool,
    recorded: bool,
    human: Option<bool>,          // None: the approver raises
    storeOkAgain: bool,
    recordedAgain: bool,
    denial: AuditOutcome,
    operationOk: bool,
    terminal: AuditOutcome)

  /** Where one settled evaluation leaves a call: what it holds, and what the shared usage became. */
  predicate SettledFrom(cfg: Config, s: State, t: State, id: nat, call: ToolCall)
  {
    && id in t.calls && IsSettled(t.calls[id].phase)
    && t.calls[id].call == call && t.calls[id].started == 0
    && t.usage == (if HoldsReservation(t.calls[id].phase) then s.usage.Recorded(call) else s.usage)
    && (t.calls[id].phase.Finished? ==> !AfterStart(t.calls[id].phase.outcome))
  }

  predicate HoldsReservation(phase: Phase)
  {
    phase.Ready? || (phase.Finished? && FirewallRuns.UnrecordedAuthorization(phase.outcome))
  }

  predicate AfterStart(outcome: Outcome)
  {
    outcome.Returned? || outcome.OperationRaised? || (outcome.AuditFailed? && outcome.afterExecution)
  }

  /** The one combination of circumstances under which the operation runs, given the decision of the policy. */
  predicate Permitted(cfg: Config, d: Decision, w: World)
  {
    && w.storeOk && (cfg.auditing ==> w.recorded)
    && (d.kind == Allow
        || (d.kind == RequireApproval && cfg.hasApprover && w.human == Some(true)
            && w.storeOkAgain && (cfg.auditing ==> w.recordedAgain)))
  }

  /** What the caller is told when the operation does not run: the first thing that stood in its way. */
  function Refusal(cfg: Config, d: Decision, w: World): Outcome
  {
    if !w.storeOk then StorageFailed
    else if cfg.auditing && !w.recorded then AuditFailed(AuditedEvent(Evaluated(d)), false)
    else if d.kind == Block then CallBlocked(d)
    else if !cfg.hasApprover then NoApprover(d)
    else HumanRefusal(cfg, d, w)
  }

  function HumanRefusal(cfg: Config, d: Decision, w: World): Outcome
  {
    if w.human.None? then ApproverRaised
    else if w.human.value then if w.storeOkAgain then AuditFailed(ApprovalGranted, false) else StorageFailed
    else if !cfg.auditing || w.denial == Recorded then CallBlocked(Denial(d))
    else if w.denial == UsageUnreadable then StorageFailed
    else AuditFailed(ApprovalDenied, false)
  }

  /** What the caller is told when it did run. */
  function Conclusion(cfg: Config, ok: bool, terminal: AuditOutcome): Outcome
  {
    if cfg.auditing && terminal != Recorded then AuditFailed(if ok then Executed else Failed, true)
    else if ok then Returned
    else OperationRaised
  }

  /** Where the first evaluation leaves a call. */
  lemma OpeningPhase(cfg: Config, s: State, id: nat, call: ToolCall, storeOk: bool, recorded: bool)
    ensures var d := Policies.Evaluate(cfg.policy, call, s.usage);
            EvaluateAndAudit(cfg, Create(s, id, call), id, storeOk, recorded).calls[id].phase
            == if !storeOk then Finished(StorageFailed)
               else if cfg.auditing && !recorded then Finished(AuditFailed(AuditedEvent(Evaluated(d)), false))
               else AfterAudit(cfg, Evaluated(d))
  {
    hide Policies.Evaluate;
    if storeOk { EvaluateMoves(cfg, Create(s, id, call), id); }
  }

  /** With the usage unchanged the second evaluation repeats the first, so an approved call goes on. */
  lemma SecondPhase(cfg: Config, s: State, id: nat, storeOk: bool, recorded: bool)
    requires id in s.calls && s.calls[id].phase.AwaitingApprover?
    requires s.calls[id].phase.decision == Policies.Evaluate(cfg.policy, s.calls[id].call, s.usage)
    requires s.calls[id].phase.decision.kind == RequireApproval
    ensures EvaluateAndAudit(cfg, Answer(s, id, true), id, storeOk, recorded).calls[id].phase
            == if !storeOk then Finished(StorageFailed)
               else if cfg.auditing && !recorded then Finished(AuditFailed(ApprovalGranted, false))
               else Ready(s.calls[id].phase.decision)
  {
    hide Policies.Evaluate;
    if storeOk { EvaluateMoves(cfg, Answer(s, id, true), id); }
  }

  /** What the human's word leads to while nobody else uses the store. */
  lemma ApprovedPhase(cfg: Config, s: State, id: nat, w: World)
    requires id in s.calls && s.calls[id].phase.AwaitingApprover? && w.human.Some?
    ensures var d, call := s.calls[id].phase.decision, s.calls[id].call;
            var t := Firewalls.FinishApproval(cfg, s, id, w.human.value, w.storeOkAgain, w.recordedAgain, w.denial);
            d.kind == RequireApproval && d == Policies.Evaluate(cfg.policy, call, s.usage) ==>
              t.calls[id].phase
              == if w.human.value && w.storeOkAgain && (cfg.auditing ==> w.recordedAgain) then Ready(d)
                 else Finished(HumanRefusal(cfg, d, w))
  {
    hide Policies.Evaluate, EvaluateAndAudit;
    var d := s.calls[id].phase.decision;
    if d.kind == RequireApproval && d == Policies.Evaluate(cfg.policy, s.calls[id].call, s.usage) {
      SecondPhase(cfg, s, id, w.storeOkAgain, w.recordedAgain);
    }
  }

  lemma NotStartedYet(cfg: Config, s: State, id: nat)
    requires Inv(cfg, s) && id in s.calls
    requires var phase := s.calls[id].phase; MayEvaluate(phase) || phase.AwaitingApprover? || phase.Ready?
    ensures s.calls[id].started == 0
  {
    hide Inv, Policies.RuleDecision, Reservations;
    PhaseOkOf(cfg, s, id);
  }

  lemma EvaluationSettles(cfg: Config, s: State, id: nat, storeOk: bool, recorded: bool)
    requires id in s.calls && MayEvaluate(s.calls[id].phase) && s.calls[id].started == 0
    ensures SettledFrom(cfg, s, EvaluateAndAudit(cfg, s, id, storeOk, recorded), id, s.calls[id].call)
  {
    hide Policies.Evaluate, Bounded, Plus;
    if storeOk {
      EvaluateMoves(cfg, s, id);
      hide EvaluateAndReserve;
    }
  }

  lemma AfterEvaluation(cfg: Config, s: State, id: nat, storeOk: bool, recorded: bool)
    requires Inv(cfg, s) && id in s.calls && MayEvaluate(s.calls[id].phase)
    ensures var t := EvaluateAndAudit(cfg, s, id, storeOk, recorded);
            Inv(cfg, t) && SettledFrom(cfg, s, t, id, s.calls[id].call)
  {
    hide Inv, Policies.Evaluate, SettledFrom;
    NotStartedYet(cfg, s, id);
    EvaluationSettles(cfg, s, id, storeOk, recorded);
    EvaluateKeepsInv(cfg, s, id, storeOk);
    if storeOk {
      AuditKeepsInv(cfg, EvaluateAndReserve(cfg, s, id, storeOk), id, WriteOutcome(recorded));
    }
  }

  lemma AfterAuthorize(cfg: Config, s: State, id: nat, call: ToolCall, storeOk: bool, recorded: bool)
    requires Inv(cfg, s) && id !in s.calls
    ensures var t := EvaluateAndAudit(cfg, Create(s, id, call), id, storeOk, recorded);
            Inv(cfg, t) && SettledFrom(cfg, s, t, id, call)
  {
    hide Inv, EvaluateAndAudit;
    CreateKeepsInv(cfg, s, id, call);
    AfterEvaluation(cfg, Create(s, id, call), id, storeOk, recorded);
  }

  lemma AfterApproval(cfg: Config, s: State, id: nat, approved: bool, storeOk: bool, recorded: bool,
      denial: AuditOutcome)
    requires Inv(cfg, s) && id in s.calls && s.calls[id].phase.AwaitingApprover?
    ensures var t := Firewalls.FinishApproval(cfg, s, id, approved, storeOk, recorded, denial);
            Inv(cfg, t) && SettledFrom(cfg, s, t, id, s.calls[id].call)
  {
    hide Inv, EvaluateAndAudit;
    AnswerKeepsInv(cfg, s, id, approved);
    NotStartedYet(cfg, s, id);
    var a := Answer(s, id, approved);
    if approved {
      AfterEvaluation(cfg, a, id, storeOk, recorded);
    } else {
      AuditKeepsInv(cfg, a, id, denial);
    }
  }

  lemma AfterOperation(cfg: Config, s: State, id: nat, ok: bool, terminal: AuditOutcome)
    requires Inv(cfg, s) && id in s.calls && s.calls[id].phase.Ready?
    ensures var t := Audit(cfg, EndOperation(Start(s, id), id, ok), id, terminal);
            && Inv(cfg, t) && t.usage == s.usage && id in t.calls
            && t.calls[id].started == 1 && t.calls[id].phase == Finished(Conclusion(cfg, ok, terminal))
  {
    hide Inv;
    NotStartedYet(cfg, s, id);
    StartKeepsInv(cfg, s, id);
    EndKeepsInv(cfg, Start(s, id), id, ok);
    AuditKeepsInv(cfg, EndOperation(Start(s, id), id, ok), id, terminal);
  }

  class Firewall {
    const cfg: Config
    const store: StateStores.MemoryStateStore
    ghost var reserved: seq<(nat, ToolCall)>
    ghost var calls: map<nat, Call>

    constructor (policy: Policy, auditing: bool, hasApprover: bool)
      ensures cfg == Config(policy, auditing, hasApprover, NO_USAGE)
      ensures fresh(store) && fresh(store.counters)
      ensures View() == Initial(cfg)
    {
      cfg := Config(policy, auditing, hasApprover, NO_USAGE);
      store := new StateStores.MemoryStateStore();
      reserved, calls := [], map[];
    }

    ghost function View(): State
      reads this, store.counters
    {
      State(store.counters.View(), reserved, calls)
    }

    // A store failure is reported before anything is reserved.
    method Evaluate(id: nat, call: ToolCall, approved: bool, storeOk: bool) returns (decision: Option<Decision>)
      requires id in calls && calls[id].call == call
      requires if approved then calls[id].phase.Answered? && calls[id].phase.approved else calls[id].phase.Fresh?
      modifies this, store.counters
      ensures View() == EvaluateAndReserve(cfg, old(View()), id, storeOk)
      ensures decision == if storeOk then Some(Policies.Evaluate(cfg.policy, call, old(store.counters.View())))
              else None
    {
      if !storeOk {
        calls := calls[id := calls[id].(phase := Finished(StorageFailed))];
        return None;
      }
      var result := store.EvaluateAndReserve(cfg.policy, call, approved);
      if result.decision.ReservesUsage(approved) {
        reserved := reserved + [(id, call)];
      }
      calls := calls[id := EvaluatedCall(calls[id], result.decision)];
      return Some(result.decision);
    }

    // Without a log the event counts as recorded.
    method RecordEvent(id: nat, outcome: AuditOutcome) returns (ok: bool)
      requires id in calls && MayAudit(calls[id].phase)
      requires outcome == UsageUnreadable ==> ReadsUsage(calls[id].phase)
      modifies this
      ensures View() == Audit(cfg, old(View()), id, outcome)
      ensures ok <==> !cfg.auditing || outcome == Recorded
    {
      ok := !cfg.auditing || outcome == Recorded;
      calls := calls[id := AuditedCall(cfg, calls[id], outcome)];
    }

    /** Authorization; the outcome is what is raised, None when the call may go on or waits for a human. */
    method Authorize(id: nat, call: ToolCall, storeOk: bool, recorded: bool)
        returns (decision: Option<Decision>, raised: Option<Outcome>)
      requires id !in calls
      modifies this, store.counters
      ensures View() == EvaluateAndAudit(cfg, Create(old(View()), id, call), id, storeOk, recorded)
      ensures Settled(id, decision, raised)
      ensures raised.None? ==> (calls[id].phase.AwaitingApprover? <==> decision.value.kind == RequireApproval)
    {
      calls := calls[id := Call(call, Fresh, [], 0)];
      decision := Evaluate(id, call, false, storeOk);
      if decision.None? {
        return None, Some(StorageFailed);
      }
      var event := match decision.value.kind
        case Block => Blocked
        case RequireApproval => ApprovalRequested
        case Allow => Allowed;
      var ok := RecordEvent(id, if recorded then Recorded else WriteFailed);
      if !ok {
        raised := Some(AuditFailed(event, false));
      } else if decision.value.kind == Block {
        raised := Some(CallBlocked(decision.value));
      } else if decision.value.kind == RequireApproval && !cfg.hasApprover {
        raised := Some(NoApprover(decision.value));
      } else {
        raised := None;
      }
    }

    /** What the caller of an authorization or an approval learns is what the call's record says. */
    ghost predicate Settled(id: nat, decision: Option<Decision>, raised: Option<Outcome>)
      reads this
    {
      && id in calls
      && match calls[id].phase
         case Finished(outcome) => raised == Some(outcome)
         case AwaitingApprover(d) => raised == None && decision == Some(d) && d.kind == RequireApproval
         case Ready(d) => raised == None && decision == Some(d)
         case _ => false
    }

    /** The human's answer to a held call, and the second evaluation after an approval. */
    method FinishApproval(id: nat, call: ToolCall, decision: Decision, approved: bool, storeOk: bool, recorded: bool,
        denial: AuditOutcome)
      returns (raised: Option<Outcome>)
      requires id in calls && calls[id].phase == AwaitingApprover(decision) && calls[id].call == call
      modifies this, store.counters
      ensures View() == Firewalls.FinishApproval(cfg, old(View()), id, approved, storeOk, recorded, denial)
      ensures Settled(id, Some(decision), raised) && !calls[id].phase.AwaitingApprover?
    {
      hide Policies.Evaluate, EvaluateAndAudit, Audit;
      calls := calls[id := calls[id].(phase := Answered(decision, approved))];
      if approved {
        raised := Reevaluate(id, call, decision, storeOk, recorded);
      } else {
        raised := RecordDenial(id, decision, denial);
      }
    }

    // The denial is audited like any other event.
    method RecordDenial(id: nat, decision: Decision, denial: AuditOutcome) returns (raised: Option<Outcome>)
      requires id in calls && calls[id].phase == Answered(decision, false)
      modifies this
      ensures View() == Audit(cfg, old(View()), id, denial)
      ensures Settled(id, Some(decision), raised) && !calls[id].phase.AwaitingApprover?
    {
      var ok := RecordEvent(id, denial);
      raised := Some(if ok then CallBlocked(Decision(Block, "human approval denied", "approval_denied",
          decision.ruleIndex))
                     else if denial == UsageUnreadable then StorageFailed
                     else AuditFailed(ApprovalDenied, false));
    }

    // The second evaluation, and the audit of what it decided.
    method Reevaluate(id: nat, call: ToolCall, decision: Decision, storeOk: bool, recorded: bool)
        returns (raised: Option<Outcome>)
      requires id in calls && calls[id].phase == Answered(decision, true) && calls[id].call == call
      modifies this, store.counters
      ensures View() == EvaluateAndAudit(cfg, old(View()), id, storeOk, recorded)
      ensures Settled(id, Some(decision), raised) && !calls[id].phase.AwaitingApprover?
    {
      hide Policies.Evaluate;
      var current := Evaluate(id, call, true, storeOk);
      if current.None? {
        raised := Some(StorageFailed);
      } else {
        var ok := RecordEvent(id, if recorded then Recorded else WriteFailed);
        raised := if current.value.kind == Block then
                    Some(if ok then CallBlocked(current.value) else AuditFailed(Blocked, false))
                  else if ok then None
                  else Some(AuditFailed(ApprovalGranted, false));
      }
    }

    /** The approver raised instead of answering. */
    ghost method RecordApproverError(id: nat)
      requires id in calls && calls[id].phase.AwaitingApprover?
      modifies this
      ensures View() == ApproverRaises(old(View()), id)
    {
      calls := calls[id := calls[id].(phase := Finished(ApproverRaised))];
    }

    /** The moment the operation is invoked. */
    ghost method StartOperation(id: nat)
      requires id in calls && calls[id].phase.Ready?
      modifies this
      ensures View() == Start(old(View()), id)
    {
      var c := calls[id];
      calls := calls[id := c.(phase := Operating(c.phase.decision), started := c.started + 1)];
    }

    /** The terminal event; its failure means the call was attempted and is not recorded. */
    method RecordTerminal(id: nat, ok: bool, terminal: AuditOutcome) returns (outcome: Outcome)
      requires id in calls && calls[id].phase.Operating?
      modifies this
      ensures View() == Audit(cfg, EndOperation(old(View()), id, ok), id, terminal)
      ensures calls[id].phase == Finished(outcome)
    {
      calls := calls[id := calls[id].(phase := Operated(calls[id].phase.decision, ok))];
      var recorded := RecordEvent(id, terminal);
      outcome := if !recorded then AuditFailed(if ok then Executed else Failed, true)
                 else if ok then Returned
                 else OperationRaised;
    }

    /** Asking the human about a held call; None when the call may now run. */
    method Approve(id: nat, call: ToolCall, decision: Decision, w: World) returns (raised: Option<Outcome>)
      requires id in calls && calls[id].phase == AwaitingApprover(decision) && calls[id].call == call
               && Inv(cfg, View())
      modifies this, store.counters
      ensures Inv(cfg, View()) && SettledFrom(cfg, old(View()), View(), id, call)
      ensures raised == if calls[id].phase.Finished? then Some(calls[id].phase.outcome) else None
      ensures raised.None? ==> calls[id].phase.Ready?
      ensures decision.kind == RequireApproval && decision == Policies.Evaluate(cfg.policy, call, old(View()).usage) ==>
                raised == if w.human == Some(true) && w.storeOkAgain && (cfg.auditing ==> w.recordedAgain) then None
                          else Some(HumanRefusal(cfg, decision, w))
    {
      hide Inv, Firewalls.FinishApproval, Policies.Evaluate;
      if w.human.None? {
        NotStartedYet(cfg, View(), id);
        ApproverRaisesKeepsInv(cfg, View(), id);
        calls := calls[id := calls[id].(phase := Finished(ApproverRaised))];
        return Some(ApproverRaised);
      }
      ApprovedPhase(cfg, View(), id, w);
      AfterApproval(cfg, View(), id, w.human.value, w.storeOkAgain, w.recordedAgain, w.denial);
      raised := FinishApproval(id, call, decision, w.human.value, w.storeOkAgain, w.recordedAgain, w.denial);
    }

    /**
     * One guarded call from beginning to end, without interference: the operation runs exactly when the policy, the
     * human, the store and the log allow it, and the caller is told what stood in the way, or how it ended.
     */
    method ExecuteSync(id: nat, call: ToolCall, w: World) returns (outcome: Outcome)
      requires id !in calls && Inv(cfg, View())
      modifies this, store.counters
      ensures Inv(cfg, View()) && id in calls && calls[id].phase == Finished(outcome)
      ensures var d := Policies.Evaluate(cfg.policy, call, old(View()).usage);
              && calls[id].started == (if Permitted(cfg, d, w) then 1 else 0)
              && outcome == if Permitted(cfg, d, w) then Conclusion(cfg, w.operationOk, w.terminal)
                            else Refusal(cfg, d, w)
      ensures View().usage
              == if AfterStart(outcome) || FirewallRuns.UnrecordedAuthorization(outcome) then
                   old(View()).usage.Recorded(call)
                 else old(View()).usage
    {
      hide Inv, EvaluateAndAudit, Audit, Policies.Evaluate;
      AfterAuthorize(cfg, View(), id, call, w.storeOk, w.recorded);
      OpeningPhase(cfg, View(), id, call, w.storeOk, w.recorded);
      var decision, raised := Authorize(id, call, w.storeOk, w.recorded);
      if raised.Some? {
        return raised.value;
      }
      if decision.value.kind == RequireApproval {
        raised := Approve(id, call, decision.value, w);
        if raised.Some? {
          return raised.value;
        }
      }
      outcome := Run(id, w.operationOk, w.terminal);
    }

    // The operation, and the audit of how it ended.
    method Run(id: nat, ok: bool, terminal: AuditOutcome) returns (outcome: Outcome)
      requires id in calls && calls[id].phase.Ready? && Inv(cfg, View())
      modifies this
      ensures Inv(cfg, View()) && View().usage == old(View()).usage
      ensures id in calls && calls[id].phase == Finished(outcome) && calls[id].started == 1
      ensures outcome == Conclusion(cfg, ok, terminal)
    {
      hide Inv, Audit;
      AfterOperation(cfg, View(), id, ok, terminal);
      StartOperation(id);
      outcome := RecordTerminal(id, ok, terminal);
    }
  }
}
