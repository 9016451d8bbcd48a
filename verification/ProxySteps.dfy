/** Every stretch of proxy code between two awaits keeps the protocol invariant. */
module ProxySteps {
  import opened Json
  import opened Policies
  import opened ProxyState
  import opened ProxyInvariant
  import Firewalls

  // ---------------------------------------------------------------- the firewall's share of a stretch

  /** `after` is `before` with only the call `h` moved on, and its tool call untouched. */
  predicate OnlyCall(before: Firewalls.State, after: Firewalls.State, h: nat)
  {
    && h in after.calls
    && after.calls == before.calls[h := after.calls[h]]
    && (h in before.calls ==>
          after.calls[h].call == before.calls[h].call && after.calls[h].started >= before.calls[h].started)
  }

  lemma EndAndAudit(cfg: Config, fw: Firewalls.State, h: nat, ok: bool, outcome: Firewalls.AuditOutcome)
      returns (r: Firewalls.State)
    requires Firewalls.Inv(cfg.fw, fw) && h in fw.calls && fw.calls[h].phase.Operating?
    ensures r == Firewalls.Audit(cfg.fw, Firewalls.EndOperation(fw, h, ok), h, outcome)
    ensures Firewalls.Inv(cfg.fw, r) && OnlyCall(fw, r, h) && r.calls[h].phase.Finished?
  {
    hide Firewalls.Inv;
    var t := Firewalls.EndOperation(fw, h, ok);
    Firewalls.EndKeepsInv(cfg.fw, fw, h, ok);
    Firewalls.AuditKeepsInv(cfg.fw, t, h, outcome);
    r := Firewalls.Audit(cfg.fw, t, h, outcome);
    assert r.calls == fw.calls[h := Firewalls.AuditedCall(cfg.fw, t.calls[h], outcome)];
  }

  lemma EvaluateAndAuditOk(cfg: Config, fw: Firewalls.State, h: nat, env: Env)
    requires Firewalls.Inv(cfg.fw, fw) && h in fw.calls && Firewalls.MayEvaluate(fw.calls[h].phase)
    ensures var r := Firewalls.EvaluateAndAudit(cfg.fw, fw, h, env.storeOk, env.recorded);
            Firewalls.Inv(cfg.fw, r) && OnlyCall(fw, r, h)
  {
    hide Policies.Evaluate, Firewalls.Inv;
    var t := Firewalls.EvaluateAndReserve(cfg.fw, fw, h, env.storeOk);
    Firewalls.EvaluateKeepsInv(cfg.fw, fw, h, env.storeOk);
    assert t.calls == fw.calls[h := t.calls[h]];
    if env.storeOk {
      Firewalls.AuditKeepsInv(cfg.fw, t, h, Firewalls.WriteOutcome(env.recorded));
    }
  }

  lemma HumanStepOk(cfg: Config, fw: Firewalls.State, h: nat, reply: HumanReply, env: Env)
    requires Firewalls.Inv(cfg.fw, fw) && h in fw.calls && fw.calls[h].phase.AwaitingApprover?
    ensures var r := HumanStep(cfg, fw, h, reply, env);
            Firewalls.Inv(cfg.fw, r) && OnlyCall(fw, r, h)
  {
    hide Firewalls.Inv, Firewalls.EvaluateAndAudit;
    match reply
    case Raises =>
      Firewalls.ApproverRaisesKeepsInv(cfg.fw, fw, h);
    case Denies =>
      var t := Firewalls.Answer(fw, h, false);
      Firewalls.AnswerKeepsInv(cfg.fw, fw, h, false);
      Firewalls.AuditKeepsInv(cfg.fw, t, h, env.denial);
    case Approves =>
      var t := Firewalls.Answer(fw, h, true);
      Firewalls.AnswerKeepsInv(cfg.fw, fw, h, true);
      EvaluateAndAuditOk(cfg, t, h, env);
  }

  lemma StartOk(cfg: Config, fw: Firewalls.State, h: nat)
    requires Firewalls.Inv(cfg.fw, fw) && h in fw.calls && fw.calls[h].phase.Ready?
    ensures var r := Firewalls.Start(fw, h);
            Firewalls.Inv(cfg.fw, r) && OnlyCall(fw, r, h) && r.calls[h].phase.Operating? && r.calls[h].started > 0
  {
    hide Firewalls.Inv;
    Firewalls.StartKeepsInv(cfg.fw, fw, h);
  }

  // ---------------------------------------------------------------- answers

  predicate Running(x: Handler) { x.point.Starting? || x.point.Closing? }

  /** A response a handler is about to hand on is the first reply to its own internal request. */
  predicate ResultOk(cfg: Config, s: State, x: Handler, result: Forwarded)
  {
    result.Replying? ==>
      && x.minted.Some? && "id" in x.message
      && FirstReply(cfg, s.childOutput, x.mintedAt, x.minted.value, result.at)
      && s.childOutput[result.at] == Object(result.reply)
  }

  predicate BodyOk(cfg: Config, s: State, x: Handler, body: Value, source: Option<nat>)
  {
    && ("id" in x.message ==> body.Obj? && IdOf(body) == x.message["id"])
    && (source.Some? ==>
          && x.minted.Some? && "id" in x.message
          && FirstReply(cfg, s.childOutput, x.mintedAt, x.minted.value, source.value)
          && body == Obj(s.childOutput[source.value].message["id" := x.message["id"]]))
  }

  lemma WrittenOk(cfg: Config, s: State, h: nat, body: Value, source: Option<nat>)
    requires h in s.handlers && BodyOk(cfg, s, s.handlers[h], body, source)
    ensures OutputOk(cfg, s, h, false, Written(cfg, h, body, source))
  {
    hide FirstReply;
  }

  lemma ForwardedBodyOk(cfg: Config, s: State, x: Handler, result: Forwarded)
    requires "id" in x.message && ResultOk(cfg, s, x, result)
    ensures BodyOk(cfg, s, x, ForwardedBody(x.message["id"], result), SourceOf(result))
  {
    hide FirstReply;
  }

  lemma SilentOk(cfg: Config, s: State, h: nat)
    requires h in s.handlers && !s.handlers[h].claimed
    ensures OutputOk(cfg, s, h, false, [])
  {}

  // ---------------------------------------------------------------- composed stretches

  lemma ClaimedHasId(cfg: Config, s: State, h: nat)
    requires Inv(cfg, s) && h in s.handlers
    ensures s.handlers[h].claimed ==> "id" in s.handlers[h].message
    ensures s.handlers[h].minted.Some? ==> s.handlers[h].claimed
    ensures h in s.fw.calls ==>
              s.handlers[h].kind.Calling?
              && ClassifyMessage(cfg, s.handlers[h].message) == ToolCallRequest(s.fw.calls[h].call)
    ensures s.handlers[h].kind.Calling? && SentBy(s.childInput, h) > 0 ==> h in s.fw.calls && s.fw.calls[h].started > 0
  {
    assert HandlerOk(cfg, s, h);
  }

  lemma ConcludeCallKeepsInv(cfg: Config, s: State, h: nat, result: Forwarded, env: Env)
    requires Inv(cfg, s) && h in s.handlers && s.handlers[h].kind.Calling? && Running(s.handlers[h])
    requires h in s.fw.calls && s.fw.calls[h].phase.Operating?
    requires ResultOk(cfg, s, s.handlers[h], result)
    ensures Inv(cfg, ConcludeCall(cfg, s, h, result, env))
  {
    hide Inv, Firewalls.Inv, ResultOk, ClassifyMessage, SentBy, Firewalls.Audit, Firewalls.EndOperation, IsToolFailure,
        ConcludedOutput, OutputOk;
    var x := s.handlers[h];
    var ok := result.Delivered? || (result.Replying? && !IsToolFailure(result.reply));
    ClaimedHasId(cfg, s, h);
    InvOfFirewall(cfg, s);
    var fw := EndAndAudit(cfg, s.fw, h, ok, env.terminal);
    var t := WithFirewall(s, fw);
    FirewallKeepsInv(cfg, s, h, fw);
    ResultOkSameLines(cfg, s, t, x, result);
    ConcludedOutputOk(cfg, t, h, result);
    FinishKeepsInv(cfg, t, h, false, ConcludedOutput(cfg, t, h, result));
    ConcludeCallIs(cfg, s, h, result, env, fw);
  }

  function ConcludedOutput(cfg: Config, t: State, h: nat, result: Forwarded): seq<Shown>
    requires h in t.handlers && h in t.fw.calls && t.fw.calls[h].phase.Finished?
  {
    var x := t.handlers[h];
    if "id" !in x.message then []
    else if t.fw.calls[h].phase.outcome.AuditFailed? then
      Written(cfg, h, ErrorResponse(x.message["id"], INTERNAL_ERROR, NOT_RECORDED), None)
    else Written(cfg, h, ForwardedBody(x.message["id"], result), SourceOf(result))
  }

  lemma ConcludeCallIs(cfg: Config, s: State, h: nat, result: Forwarded, env: Env, fw: Firewalls.State)
    requires h in s.handlers && h in s.fw.calls && s.fw.calls[h].phase.Operating?
    requires var ok := result.Delivered? || (result.Replying? && !IsToolFailure(result.reply));
             fw == Firewalls.Audit(cfg.fw, Firewalls.EndOperation(s.fw, h, ok), h, env.terminal)
    requires h in fw.calls && fw.calls[h].phase.Finished?
    ensures var t := WithFirewall(s, fw);
            && h in t.handlers
            && ConcludeCall(cfg, s, h, result, env) == Finish(t, h, false, ConcludedOutput(cfg, t, h, result))
  {
    hide Firewalls.Audit, Firewalls.EndOperation, IsToolFailure, Written, ErrorResponse, ForwardedBody, Finish;
  }

  lemma ConcludedOutputOk(cfg: Config, t: State, h: nat, result: Forwarded)
    requires h in t.handlers && h in t.fw.calls && t.fw.calls[h].phase.Finished?
    requires ResultOk(cfg, t, t.handlers[h], result) && (t.handlers[h].claimed ==> "id" in t.handlers[h].message)
    ensures OutputOk(cfg, t, h, false, ConcludedOutput(cfg, t, h, result))
  {
    hide ResultOk, BodyOk, OutputOk, Written, ForwardedBody, ErrorResponse;
    var x := t.handlers[h];
    if "id" in x.message {
      ForwardedBodyOk(cfg, t, x, result);
      ErrorBodyOk(cfg, t, x, INTERNAL_ERROR, NOT_RECORDED);
      WrittenOk(cfg, t, h, ForwardedBody(x.message["id"], result), SourceOf(result));
      WrittenOk(cfg, t, h, ErrorResponse(x.message["id"], INTERNAL_ERROR, NOT_RECORDED), None);
    } else {
      SilentOk(cfg, t, h);
    }
  }

  lemma InvOfFirewall(cfg: Config, s: State)
    requires Inv(cfg, s)
    ensures Firewalls.Inv(cfg.fw, s.fw)
  {}

  lemma ResultOkSameLines(cfg: Config, s: State, t: State, x: Handler, result: Forwarded)
    requires ResultOk(cfg, s, x, result) && t.childOutput == s.childOutput
    ensures ResultOk(cfg, t, x, result)
  {}

  lemma ErrorBodyOk(cfg: Config, s: State, x: Handler, code: int, text: string)
    requires "id" in x.message
    ensures BodyOk(cfg, s, x, ErrorResponse(x.message["id"], code, text), None)
  {}

  lemma ConcludeRelayKeepsInv(cfg: Config, s: State, h: nat, result: Forwarded)
    requires Inv(cfg, s) && h in s.handlers && !s.handlers[h].kind.Calling? && Running(s.handlers[h])
    requires ResultOk(cfg, s, s.handlers[h], result)
    ensures Inv(cfg, ConcludeRelay(cfg, s, h, result))
  {
    hide Firewalls.Inv, HandlerOk, TablesOk, LogsOk, BodyOk, Written, ForwardedBody, ClassifyMessage, SentBy, Inv,
        FirstReply;
    ClaimedHasId(cfg, s, h);
    ClaimedIsRequest(cfg, s, h);
    var x := s.handlers[h];
    if result.OtherError? {
      FinishKeepsInv(cfg, s, h, true, []);
    } else if x.kind.Requesting? && "id" in x.message {
      ForwardedBodyOk(cfg, s, x, result);
      WrittenOk(cfg, s, h, ForwardedBody(x.message["id"], result), SourceOf(result));
      FinishKeepsInv(cfg, s, h, false, Written(cfg, h, ForwardedBody(x.message["id"], result), SourceOf(result)));
    } else {
      SilentOk(cfg, s, h);
      FinishKeepsInv(cfg, s, h, false, []);
    }
  }

  lemma ClaimedIsRequest(cfg: Config, s: State, h: nat)
    requires Inv(cfg, s) && h in s.handlers
    ensures s.handlers[h].claimed ==> s.handlers[h].kind.Requesting? || s.handlers[h].kind.Calling?
  {
    assert HandlerOk(cfg, s, h);
  }

  lemma ConcludeKeepsInv(cfg: Config, s: State, h: nat, result: Forwarded, env: Env)
    requires Inv(cfg, s) && h in s.handlers && Running(s.handlers[h])
    requires s.handlers[h].kind.Calling? ==> h in s.fw.calls && s.fw.calls[h].phase.Operating?
    requires ResultOk(cfg, s, s.handlers[h], result)
    ensures Inv(cfg, Conclude(cfg, s, h, result, env))
  {
    hide Inv, ConcludeCall, ConcludeRelay, ResultOk;
    if s.handlers[h].kind.Calling? {
      ConcludeCallKeepsInv(cfg, s, h, result, env);
    } else {
      ConcludeRelayKeepsInv(cfg, s, h, result);
    }
  }

  /**
   * A handler ready to forward: it holds a claim if it expects a reply, and its operation has started if it is a
   * tools/call.
   */
  predicate MayForward(s: State, h: nat)
    requires h in s.handlers
  {
    var x := s.handlers[h];
    && x.point.Starting?
    && !x.kind.Rejecting?
    && ("id" in x.message && !x.kind.Relaying? ==> x.claimed)
    && (x.kind.Calling? ==> h in s.fw.calls && s.fw.calls[h].phase.Operating?)
  }

  lemma ForwardKeepsInv(cfg: Config, s: State, h: nat, env: Env)
    requires Inv(cfg, s) && h in s.handlers && MayForward(s, h)
    ensures Inv(cfg, Forward(cfg, s, h, env))
  {
    var x := s.handlers[h];
    if s.childFailed {
      hide Inv, Conclude;
      ConcludeKeepsInv(cfg, s, h, Unavailable, env);
    } else if "id" in x.message && !x.kind.Relaying? {
      hide Inv, Conclude, InternalId;
      var t := Mint(cfg, s, h);
      MintKeepsInv(cfg, s, h);
      if !cfg.encodes(Obj(ChildMessage(cfg, t.handlers[h]))) {
        ReleaseKeepsInv(cfg, t, h);
        ConcludeKeepsInv(cfg, Release(cfg, t, h), h, OtherError, env);
      }
    } else {
      BeginWriteKeepsInv(cfg, s, h);
    }
  }

  lemma BeginWriteKeepsInv(cfg: Config, s: State, h: nat)
    requires Inv(cfg, s) && h in s.handlers && MayForward(s, h)
    requires "id" !in s.handlers[h].message || s.handlers[h].kind.Relaying?
    ensures Inv(cfg, MoveTo(s, h, Writing(false)))
  {
    hide Firewalls.Inv, TablesOk, LogsOk, AnswersBy, SentBy, InternalId, ClassifyMessage;
    assert HandlerOk(cfg, s, h);
    MoveKeepsInv(cfg, s, h, Writing(false));
  }

  /** A tools/call whose firewall has just spoken. */
  predicate MaySettle(s: State, h: nat)
    requires h in s.handlers
  {
    var x := s.handlers[h];
    && x.kind.Calling? && x.point.Starting?
    && h in s.fw.calls && Firewalls.IsSettled(s.fw.calls[h].phase)
    && ("id" in x.message ==> x.claimed)
  }

  lemma NothingSentYet(cfg: Config, s: State, h: nat)
    requires Inv(cfg, s) && h in s.handlers && s.handlers[h].point.Starting?
    ensures SentBy(s.childInput, h) == 0
  {
    assert HandlerOk(cfg, s, h);
  }

  lemma SettleKeepsInv(cfg: Config, s: State, h: nat, env: Env)
    requires Inv(cfg, s) && h in s.handlers && MaySettle(s, h)
    ensures Inv(cfg, Settle(cfg, s, h, env))
  {
    hide Inv, Firewalls.Inv, Forward, SentBy, ClassifyMessage, HandlerOk, OutputOk, BodyOk, Written, Firewalls.Start;
    ClaimedHasId(cfg, s, h);
    NothingSentYet(cfg, s, h);
    InvOfFirewall(cfg, s);
    var x := s.handlers[h];
    match s.fw.calls[h].phase
    case Ready(_) =>
      StartOk(cfg, s.fw, h);
      FirewallKeepsInv(cfg, s, h, Firewalls.Start(s.fw, h));
      ForwardKeepsInv(cfg, WithFirewall(s, Firewalls.Start(s.fw, h)), h, env);
    case AwaitingApprover(_) =>
      HoldKeepsInv(cfg, s, h);
    case Finished(outcome) =>
      SettledAnswerKeepsInv(cfg, s, h, outcome, env);
  }

  lemma HoldKeepsInv(cfg: Config, s: State, h: nat)
    requires Inv(cfg, s) && h in s.handlers && MaySettle(s, h) && s.fw.calls[h].phase.AwaitingApprover?
    ensures Inv(cfg, MoveTo(s, h, AwaitingHuman))
  {
    hide Firewalls.Inv, TablesOk, LogsOk, AnswersBy, SentBy, InternalId, ClassifyMessage;
    assert HandlerOk(cfg, s, h);
    MoveKeepsInv(cfg, s, h, AwaitingHuman);
  }

  lemma AnswerToKeepsInv(cfg: Config, s: State, h: nat, body: Value)
    requires Inv(cfg, s) && h in s.handlers && Running(s.handlers[h])
    requires "id" in s.handlers[h].message ==> body.Obj? && IdOf(body) == s.handlers[h].message["id"]
    requires h in s.fw.calls ==> s.fw.calls[h].phase.Finished?
    ensures Inv(cfg, Finish(s, h, false, AnswerTo(cfg, h, s.handlers[h], body, None)))
  {
    hide Inv, OutputOk, Written, IdOf, HandlerOk, ClassifyMessage, SentBy;
    ClaimedHasId(cfg, s, h);
    if "id" in s.handlers[h].message {
      WrittenOk(cfg, s, h, body, None);
    } else {
      SilentOk(cfg, s, h);
    }
    FinishKeepsInv(cfg, s, h, false, AnswerTo(cfg, h, s.handlers[h], body, None));
  }

  lemma SettledAnswerKeepsInv(cfg: Config, s: State, h: nat, outcome: Firewalls.Outcome, env: Env)
    requires Inv(cfg, s) && h in s.handlers && MaySettle(s, h) && s.fw.calls[h].phase == Firewalls.Finished(outcome)
    ensures Inv(cfg, Settle(cfg, s, h, env))
  {
    hide Inv, Finish, AnswerTo, RefusalBody, IdOf;
    var x := s.handlers[h];
    var id := if "id" in x.message then x.message["id"] else Null;
    RefusalBodyHasId(id, outcome);
    AnswerToKeepsInv(cfg, s, h, RefusalBody(id, outcome));
  }

  lemma RefusalBodyHasId(id: Value, outcome: Firewalls.Outcome)
    ensures RefusalBody(id, outcome).Obj? && IdOf(RefusalBody(id, outcome)) == id
  {
    hide PolicyResponse, ErrorResponse, IdOf;
    match outcome
    case CallBlocked(d) => PolicyResponseHasId(id, CALL_BLOCKED, d);
    case NoApprover(d) => PolicyResponseHasId(id, NO_APPROVER, d);
    case _ => ErrorResponseHasId(id, INTERNAL_ERROR, NOT_EXECUTED);
  }

  lemma PolicyResponseHasId(id: Value, text: string, d: Decision)
    ensures PolicyResponse(id, text, d).Obj? && IdOf(PolicyResponse(id, text, d)) == id
  {
    hide Response, IdOf, DecisionData;
    ResponseHasId(id, Obj(map["code" := Int(POLICY_ERROR), "message" := Str(text), "data" := DecisionData(d)]));
  }

  lemma ErrorResponseHasId(id: Value, code: int, text: string)
    ensures ErrorResponse(id, code, text).Obj? && IdOf(ErrorResponse(id, code, text)) == id
  {
    hide Response, IdOf;
    ResponseHasId(id, Obj(map["code" := Int(code), "message" := Str(text)]));
  }

  lemma ResponseHasId(id: Value, error: Value)
    ensures Response(id, error).Obj? && IdOf(Response(id, error)) == id
  {}

  lemma BadNameKeepsInv(cfg: Config, s: State, h: nat, call: ToolCall, env: Env)
    requires Inv(cfg, s) && h in s.handlers && h !in s.fw.calls && s.handlers[h].kind.Calling?
             && s.handlers[h].point.Starting?
    requires !NameIsValid(call.name)
    ensures Inv(cfg, Authorize(cfg, s, h, call, env))
  {
    hide Inv, Written, AnswerTo, NameIsValid, Settle;
    var x := s.handlers[h];
    var id := if "id" in x.message then x.message["id"] else Null;
    AnswerToKeepsInv(cfg, s, h, ErrorResponse(id, INTERNAL_ERROR, NOT_EXECUTED));
  }

  lemma AuthorizeKeepsInv(cfg: Config, s: State, h: nat, call: ToolCall, env: Env)
    requires Inv(cfg, s) && h in s.handlers && h !in s.fw.calls
    requires var x := s.handlers[h];
             && x.kind.Calling? && x.point.Starting? && ("id" in x.message ==> x.claimed)
             && ClassifyMessage(cfg, x.message) == ToolCallRequest(call)
    ensures Inv(cfg, Authorize(cfg, s, h, call, env))
  {
    if !NameIsValid(call.name) {
      BadNameKeepsInv(cfg, s, h, call, env);
    } else {
      hide Inv, SentBy, ClassifyMessage, Settle, Firewalls.EvaluateAndAudit, NameIsValid, ErrorResponse, AnswerTo;
      CreatedKeepsInv(cfg, s, h, call, env);
      var fw := Firewalls.EvaluateAndAudit(cfg.fw, Firewalls.Create(s.fw, h, call), h, env.storeOk, env.recorded);
      SettleKeepsInv(cfg, WithFirewall(s, fw), h, env);
    }
  }

  lemma CreatedKeepsInv(cfg: Config, s: State, h: nat, call: ToolCall, env: Env)
    requires Inv(cfg, s) && h in s.handlers && h !in s.fw.calls
    requires var x := s.handlers[h];
             x.kind.Calling? && x.point.Starting? && ClassifyMessage(cfg, x.message) == ToolCallRequest(call)
    ensures Inv(cfg,
            WithFirewall(s,
                Firewalls.EvaluateAndAudit(cfg.fw, Firewalls.Create(s.fw, h, call), h, env.storeOk, env.recorded)))
  {
    hide Inv, Firewalls.Inv, SentBy, ClassifyMessage, Firewalls.EvaluateAndAudit, Firewalls.Create;
    NothingSentYet(cfg, s, h);
    InvOfFirewall(cfg, s);
    CreateAndEvaluateOk(cfg, s.fw, h, call, env);
    FirewallKeepsInv(cfg, s, h,
        Firewalls.EvaluateAndAudit(cfg.fw, Firewalls.Create(s.fw, h, call), h, env.storeOk, env.recorded));
  }

  lemma CreateAndEvaluateOk(cfg: Config, fw: Firewalls.State, h: nat, call: ToolCall, env: Env)
    requires Firewalls.Inv(cfg.fw, fw) && h !in fw.calls
    ensures var created := Firewalls.Create(fw, h, call);
            && h in created.calls && Firewalls.MayEvaluate(created.calls[h].phase)
            && var r := Firewalls.EvaluateAndAudit(cfg.fw, created, h, env.storeOk, env.recorded);
               Firewalls.Inv(cfg.fw, r) && OnlyCall(fw, r, h) && r.calls[h].call == call
  {
    hide Firewalls.Inv, Firewalls.EvaluateAndAudit;
    Firewalls.CreateKeepsInv(cfg.fw, fw, h, call);
    EvaluateAndAuditOk(cfg, Firewalls.Create(fw, h, call), h, env);
  }

  lemma ClaimThenKeepsInv(cfg: Config, s: State, h: nat, call: Option<ToolCall>, env: Env)
    requires Inv(cfg, s) && h in s.handlers && h !in s.fw.calls
    requires var x := s.handlers[h];
             && x.point.Starting? && !x.claimed
             && (call.Some? ==> x.kind.Calling? && ClassifyMessage(cfg, x.message) == ToolCallRequest(call.value))
             && (call.None? ==> x.kind.Requesting?)
    ensures Inv(cfg, ClaimThen(cfg, s, h, call, env))
  {
    hide Inv, ClassifyMessage, Authorize, Forward, Written, OutputOk, BodyOk;
    var x := s.handlers[h];
    if "id" in x.message && x.message["id"] in s.clientPending {
      var body := ErrorResponse(x.message["id"], INVALID_REQUEST_ERROR, DUPLICATE_TEXT);
      AnswerToKeepsInv(cfg, s, h, body);
      assert AnswerTo(cfg, h, x, body, None) == Written(cfg, h, body, None);
    } else {
      var t := if "id" in x.message then Claim(s, h) else s;
      if "id" in x.message { ClaimKeepsInv(cfg, s, h); }
      if call.Some? {
        AuthorizeKeepsInv(cfg, t, h, call.value, env);
      } else {
        ForwardKeepsInv(cfg, t, h, env);
      }
    }
  }

  lemma HandleClientLineKeepsInv(cfg: Config, s: State, h: nat, line: Line, env: Env)
    requires Inv(cfg, s) && h !in s.handlers
    ensures Inv(cfg, HandleClientLine(cfg, s, h, line, env))
  {
    hide Inv, Classify, ClassifyMessage, ClaimThen, Forward, Written, OutputOk, BodyOk, ShapeOk;
    var category := Classify(cfg, line);
    var t := Spawn(s, h, line, KindOf(category));
    FreshShape(cfg, line);
    CallsAreHandled(cfg, s);
    if category.Reject? { RefusalCarriesId(cfg, line); }
    SpawnKeepsInv(cfg, s, h, line, KindOf(category));
    match category
    case Silent =>
      SilentOk(cfg, t, h);
      FinishKeepsInv(cfg, t, h, false, []);
    case Reject(body) =>
      RejectKeepsInv(cfg, t, h, body);
    case RejectBatch(body) =>
      BatchKeepsInv(cfg, t, h, body);
    case Relay => ForwardKeepsInv(cfg, t, h, env);
    case Request => ClaimThenKeepsInv(cfg, t, h, None, env);
    case ToolCallRequest(call) => ClaimThenKeepsInv(cfg, t, h, Some(call), env);
  }

  lemma FreshShape(cfg: Config, line: Line)
    ensures ShapeOk(cfg, Fresh(line, KindOf(Classify(cfg, line))))
    ensures var category := Classify(cfg, line);
            && (line.Object? ==> category == ClassifyMessage(cfg, line.message) && !category.RejectBatch?)
            && (!line.Object? ==> KindOf(category).Rejecting?)
  {
    hide ParseCall, IsCallLike;
  }

  lemma CallsAreHandled(cfg: Config, s: State)
    requires Inv(cfg, s)
    ensures forall h | h in s.fw.calls :: h in s.handlers
  {}

  lemma RefusalCarriesId(cfg: Config, line: Line)
    requires Classify(cfg, line).Reject?
    ensures line.Object? ==>
              var body := Classify(cfg, line).body;
              "id" in line.message && body.Obj? && IdOf(body) == line.message["id"]
  {
    hide IsCallLike, ParseCall;
  }

  lemma RejectKeepsInv(cfg: Config, s: State, h: nat, body: Value)
    requires Inv(cfg, s) && h in s.handlers && s.handlers[h].point.Starting? && h !in s.fw.calls
             && !s.handlers[h].claimed
    requires "id" in s.handlers[h].message ==> body.Obj? && IdOf(body) == s.handlers[h].message["id"]
    ensures Inv(cfg, Finish(s, h, false, Written(cfg, h, body, None)))
  {
    hide Inv, OutputOk, Written;
    WrittenOk(cfg, s, h, body, None);
    FinishKeepsInv(cfg, s, h, false, Written(cfg, h, body, None));
  }

  lemma BatchKeepsInv(cfg: Config, s: State, h: nat, body: Value)
    requires Inv(cfg, s) && h in s.handlers && s.handlers[h].point.Starting? && h !in s.fw.calls
             && !s.handlers[h].claimed
    requires s.handlers[h].kind.Rejecting? && "id" !in s.handlers[h].message
    ensures Inv(cfg, Finish(s, h, false, [Answer(h, body, None)]))
    ensures Inv(cfg, Finish(s, h, true, []))
  {
    hide Inv;
    FinishKeepsInv(cfg, s, h, false, [Answer(h, body, None)]);
    FinishKeepsInv(cfg, s, h, true, []);
  }

  // ---------------------------------------------------------------- stretches after an await

  lemma WakeKeepsInv(cfg: Config, s: State, h: nat)
    requires Inv(cfg, s) && h in s.handlers && s.handlers[h].point.AwaitingHuman?
    ensures s.handlers[h].kind.Calling? && h in s.fw.calls && s.fw.calls[h].phase.AwaitingApprover?
    ensures "id" in s.handlers[h].message ==> s.handlers[h].claimed
    ensures Inv(cfg, MoveTo(s, h, Starting))
  {
    hide Firewalls.Inv, TablesOk, LogsOk, AnswersBy, SentBy, InternalId, ClassifyMessage;
    assert HandlerOk(cfg, s, h);
    MoveKeepsInv(cfg, s, h, Starting);
  }

  lemma HearHumanKeepsInv(cfg: Config, s: State, h: nat, reply: HumanReply, env: Env)
    requires Inv(cfg, s) && h in s.handlers && s.handlers[h].point.AwaitingHuman?
    ensures s.handlers[h].kind.Calling? && h in s.fw.calls && s.fw.calls[h].phase.AwaitingApprover?
    ensures Inv(cfg, HearHuman(cfg, s, h, reply, env))
  {
    hide Inv, Firewalls.Inv, HandlerOk, SentBy, ClassifyMessage, Settle, HumanStep;
    WakeKeepsInv(cfg, s, h);
    var t := MoveTo(s, h, Starting);
    ClaimedHasId(cfg, t, h);
    NothingSentYet(cfg, t, h);
    InvOfFirewall(cfg, s);
    HumanStepOk(cfg, s.fw, h, reply, env);
    var fw := HumanStep(cfg, s.fw, h, reply, env);
    FirewallKeepsInv(cfg, t, h, fw);
    SettleKeepsInv(cfg, WithFirewall(t, fw), h, env);
  }

  lemma InFlightFacts(cfg: Config, s: State, h: nat)
    requires Inv(cfg, s) && h in s.handlers && InFlight(s.handlers[h].point)
    ensures s.handlers[h].kind.Calling? ==> h in s.fw.calls && s.fw.calls[h].phase.Operating?
    ensures s.handlers[h].point.AwaitingReply? ==> s.handlers[h].minted.Some?
    ensures s.handlers[h].minted.Some? ==>
              var x := s.handlers[h];
              var id := InternalId(cfg, x.minted.value);
              "id" in x.message && id in s.pending && FutureOk(cfg, s.childOutput, x, s.pending[id])
  {
    hide InternalId, FutureOk, ClassifyMessage;
    assert HandlerOk(cfg, s, h);
  }

  /** Leaving the await for good: the future is dropped, then the result is turned into an answer. */
  lemma FailKeepsInv(cfg: Config, s: State, h: nat, result: Forwarded, env: Env)
    requires Inv(cfg, s) && h in s.handlers && InFlight(s.handlers[h].point)
    requires ResultOk(cfg, s, s.handlers[h], result)
    ensures s.handlers[h].kind.Calling? ==> h in s.fw.calls && s.fw.calls[h].phase.Operating?
    ensures Inv(cfg, Fail(cfg, s, h, result, env))
  {
    hide Inv, Conclude, FirstReply, InternalId;
    InFlightFacts(cfg, s, h);
    ReleaseKeepsInv(cfg, s, h);
    ConcludeKeepsInv(cfg, Release(cfg, s, h), h, result, env);
  }

  lemma FinishWriteKeepsInv(cfg: Config, s: State, h: nat, expired: bool, env: Env)
    requires Inv(cfg, s) && h in s.handlers && s.handlers[h].point == Writing(true)
    ensures s.handlers[h].kind.Calling? ==> h in s.fw.calls && s.fw.calls[h].phase.Operating?
    ensures Inv(cfg, FinishWrite(cfg, s, h, expired, env))
  {
    InFlightFacts(cfg, s, h);
    if s.handlers[h].minted.None? {
      hide Inv, Release, Conclude;
      FailKeepsInv(cfg, s, h, Delivered, env);
    } else if expired {
      hide Inv, Release, Conclude;
      FailKeepsInv(cfg, s, h, TimedOut, env);
    } else {
      AwaitReplyKeepsInv(cfg, s, h);
    }
  }

  lemma AwaitReplyKeepsInv(cfg: Config, s: State, h: nat)
    requires Inv(cfg, s) && h in s.handlers && s.handlers[h].point == Writing(true) && s.handlers[h].minted.Some?
    ensures Inv(cfg, MoveTo(s, h, AwaitingReply))
  {
    hide Firewalls.Inv, TablesOk, LogsOk, AnswersBy, SentBy, InternalId, ClassifyMessage;
    assert HandlerOk(cfg, s, h);
    MoveKeepsInv(cfg, s, h, AwaitingReply);
  }

  lemma TakeReplyKeepsInv(cfg: Config, s: State, h: nat, env: Env)
    requires Inv(cfg, s) && h in s.handlers && s.handlers[h].point.AwaitingReply?
    requires s.handlers[h].minted.Some?
    requires InternalId(cfg, s.handlers[h].minted.value) in s.pending
    requires !s.pending[InternalId(cfg, s.handlers[h].minted.value)].Waiting?
    ensures s.handlers[h].kind.Calling? ==> h in s.fw.calls && s.fw.calls[h].phase.Operating?
    ensures Inv(cfg, TakeReply(cfg, s, h, env))
  {
    hide Inv, Fail, FirstReply, InternalId;
    InFlightFacts(cfg, s, h);
    match s.pending[InternalId(cfg, s.handlers[h].minted.value)]
    case Replied(reply, at) => FailKeepsInv(cfg, s, h, Replying(reply, at), env);
    case Broken => FailKeepsInv(cfg, s, h, Unavailable, env);
  }
}
