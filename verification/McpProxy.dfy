/** The proxy object: each method is one stretch of a handler, or of the child reader, between two awaits. */
module McpProxy {
  import opened Json
  import opened Policies
  import opened ProxyState
  import opened ProxyInvariant
  import opened ProxyRuns
  import opened ProxyEndings
  import Firewalls
  import GuardedCalls
  import ProxySteps
  import Decimals

  function TurnedDown(cfg: Config, s: State, h: nat, category: Class): State
    requires h in s.handlers
  {
    match category
    case Reject(body) => Finish(s, h, false, Written(cfg, h, body, None))
    case RejectBatch(body) =>
      if cfg.encodes(body) then Finish(s, h, false, [Answer(h, body, None)]) else Finish(s, h, true, [])
    case _ => Finish(s, h, false, [])
  }

  class McpStdioProxy {
    const cfg: Config
    const firewall: GuardedCalls.Firewall
    var pending: map<Value, Future>
    var clientPending: set<Value>
    var requestSequence: nat
    var childFailure: bool

    // The local variables of every handler, and everything ever written to or read from either side.
    ghost var handlers: map<nat, Handler>
    ghost var childInput: seq<Sent>
    ghost var childOutput: seq<Line>
    ghost var clientOutput: seq<Shown>

    constructor (firewall: GuardedCalls.Firewall, prefix: string, encodes: Value -> bool,
        money: Value -> Option<Decimals.Decimal>)
      requires firewall.cfg.base == NO_USAGE && firewall.View() == Firewalls.Initial(firewall.cfg)
      ensures this.firewall == firewall && cfg == Config(firewall.cfg, prefix, encodes, money)
      ensures View() == Initial(cfg) && Valid()
    {
      this.firewall := firewall;
      cfg := Config(firewall.cfg, prefix, encodes, money);
      pending, clientPending, requestSequence, childFailure := map[], {}, 0, false;
      handlers, childInput, childOutput, clientOutput := map[], [], [], [];
      new;
      InitialInv(cfg);
    }

    ghost function View(): State
      reads this, firewall, firewall.store.counters
    {
      State(firewall.View(), pending, clientPending, requestSequence, childFailure, handlers, childInput, childOutput,
          clientOutput)
    }

    /** What every event finds and leaves: the protocol invariant, over the firewall this proxy was made with. */
    ghost predicate Valid()
      reads this, firewall, firewall.store.counters
    {
      cfg.fw == firewall.cfg && Inv(cfg, View())
    }

    /**
     * The event has happened since `s`: the protocol's step was taken, nobody but its handler moved, and `Valid` still
     * holds.
     */
    ghost predicate Happened(s: State, e: Event)
      reads this, firewall, firewall.store.counters
    {
      Valid() && Takes(cfg, s, e, View()) && Step(cfg, s, e, View())
    }

    lemma Happens(s: State, e: Event)
      requires cfg.fw == firewall.cfg && Inv(cfg, s) && Enabled(cfg, s, e) && AllReady(s)
      requires View() == Next(cfg, s, e)
      ensures Happened(s, e)
    {
      hide Inv, Next, Enabled, AllReady, Step;
      EventTaken(cfg, s, e);
      NextIsStep(cfg, s, e);
    }

    // The facts an event on a suspended handler starts from.
    lemma Suspended(s: State, e: Event, h: nat, x: Handler)
      requires cfg.fw == firewall.cfg && Inv(cfg, s) && s == View() && Enabled(cfg, s, e) && TargetOf(e) == Some(h)
      requires Local(h, x) && !e.ClientLine? && !e.Human?
      ensures x.kind.Calling? && !e.LineAppended? && !e.WriteStalled? ==>
                h in firewall.calls && firewall.calls[h].phase.Operating?
      ensures AllReady(s) && h in s.handlers
      ensures s.handlers[h].kind.Calling? && !e.LineAppended? && !e.WriteStalled? ==>
                h in s.fw.calls && s.fw.calls[h].phase.Operating?
      ensures e.ReplyTaken? ==> FutureDone(cfg, s, x)
    {
      hide Inv, FutureDone, AllReady, CallReady, InternalId, Firewalls.IsSettled;
      InvIsReady(cfg, s);
      ReadyCall(s, h);
      if e.ReplyTaken? {
        SameFuture(cfg, s, s.handlers[h], x);
      }
    }

    static lemma SameFuture(cfg: Config, s: State, x: Handler, y: Handler)
      requires x.minted == y.minted
      ensures FutureDone(cfg, s, x) == FutureDone(cfg, s, y)
    {
      hide InternalId;
    }

    lemma FailHappens(s: State, e: Event, h: nat, result: Forwarded, env: Env)
      requires cfg.fw == firewall.cfg && Inv(cfg, s) && Enabled(cfg, s, e) && AllReady(s) && h in s.handlers
      requires s.handlers[h].kind.Calling? ==> h in s.fw.calls && s.fw.calls[h].phase.Operating?
      requires (e == WriteFailed(h, env) && result == OtherError)
               || ((e == AbortFinished(h, env) || e == ReplyExpired(h, env)) && result == TimedOut)
      requires View() == Fail(cfg, s, h, result, env)
      ensures Happened(s, e)
    {
      hide Inv, Enabled, AllReady, Fail, Happened;
      Happens(s, e);
    }

    /** Handler `h` is running with the local variables `x`; how many child lines it has seen is not one of them. */
    ghost predicate Local(h: nat, x: Handler)
      reads this
    {
      h in handlers && handlers[h].(mintedAt := x.mintedAt) == x
    }

    // ------------------------------------------------------------ pieces of a stretch

    method WriteClient(ghost h: nat, body: Value, ghost source: Option<nat>)
      modifies this`clientOutput
      ensures clientOutput == old(clientOutput) + Written(cfg, h, body, source)
    {
      if cfg.encodes(body) {
        clientOutput := clientOutput + [Answer(h, body, source)];
      } else {
        var fallback := TooDeep(IdOf(body));
        if cfg.encodes(fallback) {
          clientOutput := clientOutput + [Answer(h, fallback, None)];
        }
      }
    }

    // The end of a handler: its claim is discarded and its answer, if any, is written.
    method End(ghost h: nat, x: Handler, ghost escaped: bool, body: Option<Value>, ghost source: Option<nat>)
      requires Local(h, x)
      modifies this
      ensures View() == Finish(old(View()), h, escaped, if body.Some? then Written(cfg, h, body.value, source) else [])
    {
      if x.claimed && "id" in x.message {
        clientPending := clientPending - {x.message["id"]};
      }
      if body.Some? {
        WriteClient(h, body.value, source);
      }
      handlers := handlers[h := handlers[h].(point := Ended(escaped))];
    }

    /** Claims the id of a request, or refuses it because a request with the same id is still in flight. */
    method ClaimClientId(ghost h: nat, x: Handler) returns (claimed: bool)
      requires Local(h, x) && "id" in x.message
      modifies this
      ensures claimed <==> x.message["id"] !in old(clientPending)
      ensures View() == if claimed then Claim(old(View()), h)
                        else Finish(old(View()), h, false,
                                    Written(cfg, h,
                                        ErrorResponse(x.message["id"], INVALID_REQUEST_ERROR, DUPLICATE_TEXT), None))
    {
      if x.message["id"] in clientPending {
        End(h, x, false, Some(ErrorResponse(x.message["id"], INVALID_REQUEST_ERROR, DUPLICATE_TEXT)), None);
        return false;
      }
      clientPending := clientPending + {x.message["id"]};
      handlers := handlers[h := handlers[h].(claimed := true)];
      return true;
    }

    // Drops the future of a minted request.
    method DropFuture(ghost h: nat, x: Handler)
      requires Local(h, x)
      modifies this
      ensures View() == Release(cfg, old(View()), h) && Local(h, x.(point := Closing))
    {
      if x.minted.Some? {
        pending := pending - {InternalId(cfg, x.minted.value)};
      }
      handlers := handlers[h := handlers[h].(point := Closing)];
    }

    /** The end of a guarded operation: the terminal event is recorded before the client learns anything. */
    method EndCall(h: nat, x: Handler, result: Forwarded, env: Env)
      requires Local(h, x) && cfg.fw == firewall.cfg
      requires h in firewall.calls && firewall.calls[h].phase.Operating?
      modifies this, firewall
      ensures View() == ConcludeCall(cfg, old(View()), h, result, env)
    {
      hide Firewalls.Audit, Firewalls.EndOperation, Written, ForwardedBody, ErrorResponse, Finish, IsToolFailure;
      var ok := result.Delivered? || (result.Replying? && !IsToolFailure(result.reply));
      var outcome := firewall.RecordTerminal(h, ok, env.terminal);
      assert View() == WithFirewall(old(View()), firewall.View());
      if "id" !in x.message {
        End(h, x, false, None, None);
      } else if outcome.AuditFailed? {
        End(h, x, false, Some(ErrorResponse(x.message["id"], INTERNAL_ERROR, NOT_RECORDED)), None);
      } else {
        End(h, x, false, Some(ForwardedBody(x.message["id"], result)), SourceOf(result));
      }
    }

    method EndRelay(ghost h: nat, x: Handler, result: Forwarded)
      requires Local(h, x)
      modifies this
      ensures View() == ConcludeRelay(cfg, old(View()), h, result)
    {
      if result.OtherError? {
        End(h, x, true, None, None);
      } else if x.kind.Requesting? && "id" in x.message {
        End(h, x, false, Some(ForwardedBody(x.message["id"], result)), SourceOf(result));
      } else {
        End(h, x, false, None, None);
      }
    }

    method EndForward(h: nat, x: Handler, result: Forwarded, env: Env)
      requires Local(h, x) && cfg.fw == firewall.cfg
      requires x.kind.Calling? ==> h in firewall.calls && firewall.calls[h].phase.Operating?
      modifies this, firewall
      ensures View() == Conclude(cfg, old(View()), h, result, env)
    {
      if x.kind.Calling? {
        EndCall(h, x, result, env);
      } else {
        EndRelay(h, x, result);
      }
    }

    /**
     * Forwarding up to its first await: a fresh internal id and a future for a request, the bare line for anything
     * else.
     */
    method BeginForward(h: nat, x: Handler, env: Env)
      requires Local(h, x) && cfg.fw == firewall.cfg
      requires x.kind.Calling? ==> h in firewall.calls && firewall.calls[h].phase.Operating?
      modifies this, firewall
      ensures View() == Forward(cfg, old(View()), h, env)
    {
      hide Conclude, InternalId;
      if childFailure {
        EndForward(h, x, Unavailable, env);
      } else if "id" in x.message && !x.kind.Relaying? {
        requestSequence := requestSequence + 1;
        pending := pending[InternalId(cfg, requestSequence) := Waiting];
        var y := x.(minted := Some(requestSequence), point := Writing(false));
        handlers := handlers[h := handlers[h].(minted := y.minted, mintedAt := |childOutput|, point := y.point)];
        if !cfg.encodes(Obj(ChildMessage(cfg, y))) {
          DropFuture(h, y);
          EndForward(h, y.(point := Closing), OtherError, env);
        }
      } else {
        handlers := handlers[h := handlers[h].(point := Writing(false))];
      }
    }

    /** What follows the firewall's word: a human is awaited, the operation starts, or the refusal is answered. */
    method ActOn(h: nat, x: Handler, held: bool, raised: Option<Firewalls.Outcome>, env: Env)
      requires Local(h, x) && cfg.fw == firewall.cfg && x.kind.Calling?
      requires h in firewall.calls && Firewalls.IsSettled(firewall.calls[h].phase)
      requires raised == if firewall.calls[h].phase.Finished? then Some(firewall.calls[h].phase.outcome) else None
      requires raised.None? ==> (held <==> firewall.calls[h].phase.AwaitingApprover?)
      modifies this, firewall
      ensures View() == Settle(cfg, old(View()), h, env)
    {
      hide Written, Forward, ErrorResponse, PolicyResponse, Finish;
      if raised.Some? {
        AnswerRefusal(h, x, raised.value, env);
      } else if held {
        handlers := handlers[h := handlers[h].(point := AwaitingHuman)];
      } else {
        firewall.StartOperation(h);
        BeginForward(h, x, env);
      }
    }

    method AnswerRefusal(h: nat, x: Handler, outcome: Firewalls.Outcome, ghost env: Env)
      requires Local(h, x) && x.kind.Calling?
      requires h in firewall.calls && firewall.calls[h].phase == Firewalls.Finished(outcome)
      modifies this
      ensures View() == Settle(cfg, old(View()), h, env)
    {
      hide Written, Forward, RefusalBody, Finish;
      var body := if "id" in x.message then Some(RefusalBody(x.message["id"], outcome)) else None;
      End(h, x, false, body, None);
    }

    /** The guarded path of a tools/call that holds its claim. */
    method AuthorizeCall(h: nat, x: Handler, call: ToolCall, env: Env)
      requires Local(h, x) && cfg.fw == firewall.cfg && x.kind.Calling? && h !in firewall.calls
      modifies this, firewall, firewall.store.counters
      ensures View() == Authorize(cfg, old(View()), h, call, env)
    {
      hide Settle, Written, ErrorResponse, Firewalls.EvaluateAndAudit;
      if !NameIsValid(call.name) {
        var id := if "id" in x.message then x.message["id"] else Null;
        var body := ErrorResponse(id, INTERNAL_ERROR, NOT_EXECUTED);
        End(h, x, false, if "id" in x.message then Some(body) else None, None);
      } else {
        var decision, raised := firewall.Authorize(h, call, env.storeOk, env.recorded);
        ActOn(h, x, decision.Some? && decision.value.kind == RequireApproval, raised, env);
      }
    }

    method ClaimAndForward(h: nat, x: Handler, call: Option<ToolCall>, env: Env)
      requires Local(h, x) && cfg.fw == firewall.cfg && h !in firewall.calls && (x.kind.Calling? <==> call.Some?)
      modifies this, firewall, firewall.store.counters
      ensures View() == ClaimThen(cfg, old(View()), h, call, env)
    {
      hide Written, ErrorResponse, Forward, Authorize;
      var y := x;
      if "id" in x.message {
        var claimed := ClaimClientId(h, x);
        if !claimed {
          return;
        }
        y := x.(claimed := true);
      }
      if call.Some? {
        AuthorizeCall(h, y, call.value, env);
      } else {
        BeginForward(h, y, env);
      }
    }

    // The stretch of a new handler: classification of the line, then what its class asks for.
    method HandleLine(h: nat, line: Line, env: Env)
      requires cfg.fw == firewall.cfg && h !in handlers && h !in firewall.calls
      modifies this, firewall, firewall.store.counters
      ensures View() == HandleClientLine(cfg, old(View()), h, line, env)
    {
      hide Finish, Written, Forward, ClaimThen, Classify, ClassifyMessage;
      var x := Fresh(line, KindOf(Classify(cfg, line)));
      handlers := handlers[h := x];
      ClassOfLine(line);
      if line.Object? {
        Dispatch(h, x, env);
      } else {
        RejectLine(h, x, line);
      }
    }

    // A line that is no message; it is answered, when it can be, and goes no further.
    method RejectLine(ghost h: nat, x: Handler, line: Line)
      requires Local(h, x) && !line.Object?
      modifies this
      ensures View() == TurnedDown(cfg, old(View()), h, Classify(cfg, line))
    {
      hide Finish, Written, ErrorResponse, BatchErrors;
      if line.Oversized? {
        End(h, x, false, Some(ErrorResponse(Null, PARSE_ERROR, "request too large")), None);
      } else if line.Blank? {
        End(h, x, false, None, None);
      } else if line.Batch? {
        RejectBatch(h, x, BatchErrors(line.items));
      } else {
        End(h, x, false, Some(ErrorResponse(Null, PARSE_ERROR, "invalid JSON-RPC message")), None);
      }
    }

    lemma ClassOfLine(line: Line)
      ensures var category := Classify(cfg, line);
              if line.Object? then category == ClassifyMessage(cfg, line.message) && !category.RejectBatch?
              else category.Silent? || category.Reject? || category.RejectBatch?
    {
      hide ErrorResponse, BatchErrors, ParseCall, IsCallLike;
    }

    // One line answers all the elements that carry an id; there is no shorter one to fall back to.
    method RejectBatch(ghost h: nat, x: Handler, errors: seq<Value>)
      requires Local(h, x)
      modifies this
      ensures View() == if errors == [] then Finish(old(View()), h, false, [])
                        else if cfg.encodes(Arr(errors)) then
                          Finish(old(View()), h, false, [Answer(h, Arr(errors), None)])
                        else Finish(old(View()), h, true, [])
    {
      if errors == [] {
        End(h, x, false, None, None);
      } else if cfg.encodes(Arr(errors)) {
        End(h, x, false, Some(Arr(errors)), None);
      } else {
        End(h, x, true, None, None);
      }
    }

    method Dispatch(h: nat, x: Handler, env: Env)
      requires cfg.fw == firewall.cfg && Local(h, x) && h !in firewall.calls
      requires x.kind == KindOf(ClassifyMessage(cfg, x.message))
      modifies this, firewall, firewall.store.counters
      ensures View() == match ClassifyMessage(cfg, x.message)
                        case Silent => Finish(old(View()), h, false, [])
                        case Reject(body) => Finish(old(View()), h, false, Written(cfg, h, body, None))
                        case Relay => Forward(cfg, old(View()), h, env)
                        case Request => ClaimThen(cfg, old(View()), h, None, env)
                        case ToolCallRequest(call) => ClaimThen(cfg, old(View()), h, Some(call), env)
    {
      hide Finish, Written, Forward, ClaimThen, ErrorResponse, IsCallLike, ParseCall;
      var m := x.message;
      if "method" !in m || !m["method"].Str? {
        if "method" !in m && ("result" in m || "error" in m) {
          BeginForward(h, x, env);
        } else {
          Refuse(h, x, INVALID_REQUEST_ERROR, "JSON-RPC method must be a string");
        }
      } else if m["method"].s != TOOLS_CALL {
        if IsCallLike(m["method"].s) {
          Refuse(h, x, METHOD_NOT_FOUND_ERROR, "unsupported tools/call alias; use exact tools/call");
        } else if "id" in m {
          ClaimAndForward(h, x, None, env);
        } else {
          BeginForward(h, x, env);
        }
      } else {
        var parsed := ParseCall(cfg, m);
        if parsed.Malformed? {
          Refuse(h, x, INVALID_PARAMS_ERROR, parsed.text);
        } else {
          ClaimAndForward(h, x, Some(parsed.call), env);
        }
      }
    }

    method Refuse(ghost h: nat, x: Handler, code: int, text: string)
      requires Local(h, x)
      modifies this
      ensures var category := Refusal(x.message, code, text);
              View() == Finish(old(View()), h, false, if category.Reject? then Written(cfg, h, category.body, None)
                  else [])
    {
      End(h, x, false, if "id" in x.message then Some(ErrorResponse(x.message["id"], code, text)) else None, None);
    }

    // Leaving an await for good: the future is dropped, whatever happened, before the result is turned into an answer.
    method Leave(h: nat, x: Handler, result: Forwarded, env: Env)
      requires Local(h, x) && cfg.fw == firewall.cfg
      requires x.kind.Calling? ==> h in firewall.calls && firewall.calls[h].phase.Operating?
      modifies this, firewall
      ensures View() == Fail(cfg, old(View()), h, result, env)
    {
      hide Conclude, Release;
      DropFuture(h, x);
      EndForward(h, x.(point := Closing), result, env);
    }

    // ------------------------------------------------------------ the events
    //
    // Each of these is one event of the protocol. It may be called whenever the event is enabled, in any valid state,
    // and nothing else is asked of the caller than to pass the local variables of the handler it concerns.

    /** A client line arrives. */
    method OnClientLine(h: nat, line: Line, env: Env)
      requires Valid() && Enabled(cfg, View(), ClientLine(h, line, env))
      modifies this, firewall, firewall.store.counters
      ensures Happened(old(View()), ClientLine(h, line, env))
    {
      hide Inv, AllReady, HandleClientLine, Happened;
      ghost var s := View();
      InvIsReady(cfg, s);
      ProxySteps.CallsAreHandled(cfg, s);
      HandleLine(h, line, env);
      Happens(s, ClientLine(h, line, env));
    }

    /** The approver answered a held call. */
    method OnHumanAnswer(h: nat, x: Handler, call: ToolCall, decision: Decision, reply: HumanReply, env: Env)
      requires Valid() && Enabled(cfg, View(), Human(h, reply, env)) && Local(h, x)
      requires h in firewall.calls && firewall.calls[h].call == call
      requires firewall.calls[h].phase == Firewalls.AwaitingApprover(decision)
      modifies this, firewall, firewall.store.counters
      ensures Happened(old(View()), Human(h, reply, env))
    {
      hide Inv, AllReady, HearHuman, Happened;
      ghost var s := View();
      InvIsReady(cfg, s);
      assert CallReady(s, h);
      Hear(h, x, call, decision, reply, env);
      Happens(s, Human(h, reply, env));
    }

    method Hear(h: nat, x: Handler, call: ToolCall, decision: Decision, reply: HumanReply, env: Env)
      requires cfg.fw == firewall.cfg && Local(h, x) && x.kind.Calling?
      requires h in firewall.calls && firewall.calls[h].call == call
      requires firewall.calls[h].phase == Firewalls.AwaitingApprover(decision)
      modifies this, firewall, firewall.store.counters
      ensures View() == HearHuman(cfg, old(View()), h, reply, env)
    {
      hide Settle, Firewalls.FinishApproval;
      handlers := handlers[h := handlers[h].(point := Starting)];
      var y := x.(point := Starting);
      if reply.Raises? {
        firewall.RecordApproverError(h);
        ActOn(h, y, false, Some(Firewalls.ApproverRaised), env);
      } else {
        var raised := firewall.FinishApproval(h, call, decision, reply.Approves?, env.storeOk, env.recorded,
            env.denial);
        ActOn(h, y, false, raised, env);
      }
    }

    /** The line of a handler goes into the child's input, whole. */
    ghost method OnLineAppended(h: nat)
      requires Valid() && Enabled(cfg, View(), LineAppended(h))
      modifies this
      ensures Happened(old(View()), LineAppended(h))
    {
      hide Inv, AllReady, Happened, ChildLineOf;
      ghost var s := View();
      InvIsReady(cfg, s);
      childInput := childInput + [Sent(h, ChildLineOf(cfg, handlers[h]))];
      handlers := handlers[h := handlers[h].(point := Writing(true))];
      Happens(s, LineAppended(h));
    }

    /** The write completed; `expired` says that the deadline passed meanwhile. */
    method OnWriteFinished(h: nat, x: Handler, expired: bool, env: Env)
      requires Valid() && Enabled(cfg, View(), WriteFinished(h, expired, env)) && Local(h, x)
      modifies this, firewall
      ensures Happened(old(View()), WriteFinished(h, expired, env))
    {
      hide Inv, Enabled, AllReady, FinishWrite, Happened, Step, Takes;
      ghost var s := View();
      Suspended(s, WriteFinished(h, expired, env), h, x);
      AfterWrite(h, x, expired, env);
      Happens(s, WriteFinished(h, expired, env));
    }

    method AfterWrite(h: nat, x: Handler, expired: bool, env: Env)
      requires cfg.fw == firewall.cfg && Local(h, x)
      requires x.kind.Calling? ==> h in firewall.calls && firewall.calls[h].phase.Operating?
      modifies this, firewall
      ensures View() == FinishWrite(cfg, old(View()), h, expired, env)
    {
      hide Conclude, Release;
      if x.minted.None? {
        Leave(h, x, Delivered, env);
      } else if expired {
        Leave(h, x, TimedOut, env);
      } else {
        handlers := handlers[h := handlers[h].(point := AwaitingReply)];
      }
    }

    /** The write failed otherwise than by a timeout. */
    method OnWriteFailed(h: nat, x: Handler, env: Env)
      requires Valid() && Enabled(cfg, View(), WriteFailed(h, env)) && Local(h, x)
      modifies this, firewall
      ensures Happened(old(View()), WriteFailed(h, env))
    {
      hide Inv, Enabled, AllReady, FutureDone, Fail, Happened;
      ghost var s := View();
      Suspended(s, WriteFailed(h, env), h, x);
      Leave(h, x, OtherError, env);
      FailHappens(s, WriteFailed(h, env), h, OtherError, env);
    }

    /** A stalled write: the child is given up for every handler, and no table changes. */
    method OnWriteStalled(ghost h: nat)
      requires Valid() && Enabled(cfg, View(), WriteStalled(h))
      modifies this
      ensures Happened(old(View()), WriteStalled(h))
      ensures childFailure && pending == old(pending) && clientPending == old(clientPending)
      ensures clientOutput == old(clientOutput) && childInput == old(childInput)
    {
      hide Inv, AllReady, Happened, FutureDone;
      ghost var s := View();
      InvIsReady(cfg, s);
      childFailure := true;
      handlers := handlers[h := handlers[h].(point := Aborting)];
      Happens(s, WriteStalled(h));
    }

    /** The child of a stalled write is gone. */
    method OnAbortFinished(h: nat, x: Handler, env: Env)
      requires Valid() && Enabled(cfg, View(), AbortFinished(h, env)) && Local(h, x)
      modifies this, firewall
      ensures Happened(old(View()), AbortFinished(h, env))
    {
      hide Inv, Enabled, AllReady, FutureDone, Fail, Happened;
      ghost var s := View();
      Suspended(s, AbortFinished(h, env), h, x);
      Leave(h, x, TimedOut, env);
      FailHappens(s, AbortFinished(h, env), h, TimedOut, env);
    }

    /** The future of a waiting handler is done. */
    method OnReply(h: nat, x: Handler, env: Env)
      requires Valid() && Enabled(cfg, View(), ReplyTaken(h, env)) && Local(h, x)
      modifies this, firewall
      ensures Happened(old(View()), ReplyTaken(h, env))
    {
      hide Inv, Enabled, AllReady, FutureDone, TakeReply, Happened;
      ghost var s := View();
      Suspended(s, ReplyTaken(h, env), h, x);
      Wake(h, x, env);
      Happens(s, ReplyTaken(h, env));
    }

    method Wake(h: nat, x: Handler, env: Env)
      requires cfg.fw == firewall.cfg && Local(h, x) && FutureDone(cfg, View(), x)
      requires x.kind.Calling? ==> h in firewall.calls && firewall.calls[h].phase.Operating?
      modifies this, firewall
      ensures View() == TakeReply(cfg, old(View()), h, env)
    {
      hide Fail, InternalId;
      match pending[InternalId(cfg, x.minted.value)]
      case Replied(reply, at) => Leave(h, x, Replying(reply, at), env);
      case Broken => Leave(h, x, Unavailable, env);
    }

    /** The time of a waiting handler is up. */
    method OnReplyExpired(h: nat, x: Handler, env: Env)
      requires Valid() && Enabled(cfg, View(), ReplyExpired(h, env)) && Local(h, x)
      modifies this, firewall
      ensures Happened(old(View()), ReplyExpired(h, env))
    {
      hide Inv, Enabled, AllReady, FutureDone, Fail, Happened;
      ghost var s := View();
      Suspended(s, ReplyExpired(h, env), h, x);
      Leave(h, x, TimedOut, env);
      FailHappens(s, ReplyExpired(h, env), h, TimedOut, env);
    }

    /** Line number `at` of the child's output: it resolves a future, is dropped, or is relayed if it passes. */
    method OnChildLine(line: Line, at: nat)
      requires Valid() && at == |childOutput|
      modifies this
      ensures Happened(old(View()), ChildLine(line))
      ensures clientOutput == if Passes(cfg, line) then old(clientOutput) + [Relayed(at)] else old(clientOutput)
    {
      hide Inv, AllReady, Happened, ReadChildLine, Passes, IsInternalId, InternalId;
      ghost var s := View();
      InvIsReady(cfg, s);
      InvIsInternal(cfg, s);
      ReadEffect(cfg, s, line);
      Read(line, at);
      Happens(s, ChildLine(line));
    }

    method Read(line: Line, at: nat)
      requires at == |childOutput|
      modifies this
      ensures View() == ReadChildLine(cfg, old(View()), line)
    {
      childOutput := childOutput + [line];
      if line.Oversized? || line.Untrusted? {
        return;
      }
      if !line.Object? || "method" in line.message || "id" !in line.message {
        clientOutput := clientOutput + [Relayed(at)];
        return;
      }
      var id := line.message["id"];
      if id in pending && pending[id].Waiting? {
        pending := pending[id := Replied(line.message, at)];
      } else if !IsInternalId(cfg, id) {
        clientOutput := clientOutput + [Relayed(at)];
      }
    }

    /** The end of the child's output: no future waits any longer, those already done stay, and no id is forgotten. */
    method OnChildExit()
      requires Valid()
      modifies this
      ensures Happened(old(View()), ChildExited)
      ensures pending.Keys == old(pending).Keys
      ensures forall id | id in pending ::
                if old(pending)[id].Waiting? then pending[id].Broken? else pending[id] == old(pending)[id]
    {
      hide Inv, AllReady, Happened, ChildExits, Step, Takes;
      ghost var s := View();
      InvIsReady(cfg, s);
      BreakFutures();
      Happens(s, ChildExited);
    }

    method BreakFutures()
      modifies this
      ensures View() == ChildExits(old(View()))
      ensures pending.Keys == old(pending).Keys
      ensures forall id | id in pending ::
                if old(pending)[id].Waiting? then pending[id].Broken? else pending[id] == old(pending)[id]
    {
      pending := map id | id in pending :: if pending[id].Waiting? then Broken else pending[id];
    }
  }
}
