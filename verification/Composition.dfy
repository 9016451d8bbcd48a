/** The firewall with its approval queue and its audit file in place of the answers the steps take as given. */
module Composition {
  import opened Json
  import opened Policies
  import Approvals
  import AuditLog
  import Firewalls
  import GuardedCalls

  /**
   * A held call waits in the queue: it is finished by the first decision anyone makes on it, and runs only if that
   * approves it.
   */
  method AnswerFromQueue(
      firewall: GuardedCalls.Firewall, queue: Approvals.SQLiteApprovalQueue, id: nat, key: string, call: ToolCall,
      decision: Decision, others: Approvals.World, storeOk: bool, recorded: bool, denial: Firewalls.AuditOutcome)
    returns (raised: Option<Firewalls.Outcome>)
    requires queue.Valid() && id in firewall.calls && firewall.calls[id].call == call
    requires firewall.calls[id].phase == Firewalls.AwaitingApprover(decision)
    modifies firewall, firewall.store.counters, queue
    ensures queue.Valid() && Approvals.Decided(queue.rows, key)
    ensures var first := Approvals.FirstDecision(queue.history, key, false);
            && first.Some?
            && firewall.View() == Firewalls.FinishApproval(
                 firewall.cfg, old(firewall.View()), id, first == Some(Approvals.Approved), storeOk, recorded, denial)
            && (firewall.calls[id].phase.Ready? ==> first == Some(Approvals.Approved))
  {
    hide Firewalls.EvaluateAndAudit, Approvals.Interleaved;
    var approved := queue.Wait(key, call.name, decision.reason, others);
    Approvals.StatusIsFirst(queue.history, key);
    raised := firewall.FinishApproval(id, call, decision, approved, storeOk, recorded, denial);
  }

  /**
   * An event is recorded for its call exactly when its record went into the file, whole, right behind what was there.
   */
  method RecordInFile(
      firewall: GuardedCalls.Firewall, log: AuditLog.JsonlAuditLog, id: nat, text: AuditLog.EntryText,
          fault: AuditLog.Fault)
    returns (ok: bool)
    requires id in firewall.calls && Firewalls.MayAudit(firewall.calls[id].phase) && firewall.cfg.auditing
    modifies firewall, log
    ensures firewall.View() == Firewalls.Audit(
              firewall.cfg, old(firewall.View()), id, if ok then Firewalls.Recorded else Firewalls.WriteFailed)
    ensures ok ==> log.file == old(log.file) + AuditLog.Record(text)
    ensures ok <==> fault.NoFault? && !AuditLog.Torn(old(log.file))
    ensures old(log.file) <= log.file
  {
    var outcome := log.Append(text, fault);
    ok := firewall.RecordEvent(id, if outcome.Recorded? then Firewalls.Recorded else Firewalls.WriteFailed);
  }
}
