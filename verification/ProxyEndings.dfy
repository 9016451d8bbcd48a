/**
 * How a handler ends: what each event does to the one handler it concerns, and from which events an answer stays out.
 */
module ProxyEndings {
  import opened Json
  import opened Policies
  import opened ProxyState
  import opened ProxyInvariant
  import opened ProxyRuns
  import Firewalls

  // ---------------------------------------------------------------- what one event moves

  /** The child lines that were relayed, in the order in which they were. */
  function RelayedOf(output: seq<Shown>): seq<nat>
  {
    if output == [] then []
    else
      var last := output[|output| - 1];
      RelayedOf(output[..|output| - 1]) + if last.Relayed? then [last.at] else []
  }

  lemma {:induction false} RelayedAppend(a: seq<Shown>, b: seq<Shown>)
    ensures RelayedOf(a + b) == RelayedOf(a) + RelayedOf(b)
  {
    if b == [] {
      assert a + b == a;
    } else {
      assert (a + b)[..|a + b| - 1] == a + b[..|b| - 1];
      RelayedAppend(a, b[..|b| - 1]);
    }
  }

  lemma AnswersRelayNothing(output: seq<Shown>)
    requires |output| <= 1 && (output != [] ==> output[0].Answer?)
    ensures RelayedOf(output) == []
  {
    if output != [] { assert output[..|output| - 1] == []; }
  }

  /** The points at which a handler is suspended, or done. */
  predicate AtRest(p: Point) { !p.Starting? && !p.Closing? }

  predicate MovesOn(s: State, x: Handler, y: Handler, escaped: bool)
  {
    && y.line == x.line && y.message == x.message && y.kind == x.kind
    && AtRest(y.point) && (y.point == Ended(true) <==> escaped)
    && (y.point == Writing(false) ==> !s.childFailed)
  }

  /** Nothing but handler `h` has moved, to a point of rest, and nothing was exchanged with the child. */
  predicate Moves(s: State, t: State, h: nat, escaped: bool)
    requires h in s.handlers
  {
    && h in t.handlers && t.handlers == s.handlers[h := t.handlers[h]]
    && MovesOn(s, s.handlers[h], t.handlers[h], escaped)
    && t.childFailed == s.childFailed && t.childInput == s.childInput && t.childOutput == s.childOutput
    && RelayedOf(t.clientOutput) == RelayedOf(s.clientOutput)
  }

  lemma FinishMoves(s: State, h: nat, escaped: bool, output: seq<Shown>)
    requires h in s.handlers && |output| <= 1 && (output != [] ==> output[0].Answer?)
    ensures Moves(s, Finish(s, h, escaped, output), h, escaped)
  {
    RelayedAppend(s.clientOutput, output);
    AnswersRelayNothing(output);
  }

  lemma ConcludeCallMoves(cfg: Config, s: State, h: nat, result: Forwarded, env: Env)
    requires h in s.handlers && h in s.fw.calls && s.fw.calls[h].phase.Operating?
    ensures Moves(s, ConcludeCall(cfg, s, h, result, env), h, false)
    ensures ConcludeCall(cfg, s, h, result, env).handlers[h].point.Ended?
  {
    hide Moves, Finish, IsToolFailure, ForwardedBody, ErrorResponse, Firewalls.AuditedCall, Written;
    var x := s.handlers[h];
    var ok := result.Delivered? || (result.Replying? && !IsToolFailure(result.reply));
    TerminalPhase(cfg, s.fw, h, ok, env.terminal);
    var fw := Firewalls.Audit(cfg.fw, Firewalls.EndOperation(s.fw, h, ok), h, env.terminal);
    FirewallThenFinish(s, fw, h, []);
    if "id" in x.message {
      WrittenIsAnswer(cfg, h, ErrorResponse(x.message["id"], INTERNAL_ERROR, NOT_RECORDED), None);
      WrittenIsAnswer(cfg, h, ForwardedBody(x.message["id"], result), SourceOf(result));
      FirewallThenFinish(s, fw, h, Written(cfg, h, ErrorResponse(x.message["id"], INTERNAL_ERROR, NOT_RECORDED), None));
      FirewallThenFinish(s, fw, h, Written(cfg, h, ForwardedBody(x.message["id"], result), SourceOf(result)));
    }
  }

  lemma WrittenIsAnswer(cfg: Config, h: nat, body: Value, source: Option<nat>)
    ensures var output := Written(cfg, h, body, source); |output| <= 1 && (output != [] ==> output[0].Answer?)
  {}

  lemma FirewallThenFinish(s: State, fw: Firewalls.State, h: nat, output: seq<Shown>)
    requires h in s.handlers && |output| <= 1 && (output != [] ==> output[0].Answer?)
    ensures var t := WithFirewall(s, fw);
            h in t.handlers && Moves(s, Finish(t, h, false, output), h, false)
            && Finish(t, h, false, output).handlers[h].point.Ended?
  {
    hide RelayedOf;
    FinishMoves(WithFirewall(s, fw), h, false, output);
  }

  lemma ConcludeRelayMoves(cfg: Config, s: State, h: nat, result: Forwarded)
    requires h in s.handlers
    ensures Moves(s, ConcludeRelay(cfg, s, h, result), h, result.OtherError?)
    ensures ConcludeRelay(cfg, s, h, result).handlers[h].point.Ended?
  {
    hide Moves, ForwardedBody, Written, RelayedOf;
    var x := s.handlers[h];
    if "id" in x.message {
      WrittenIsAnswer(cfg, h, ForwardedBody(x.message["id"], result), SourceOf(result));
      FinishMoves(s, h, false, Written(cfg, h, ForwardedBody(x.message["id"], result), SourceOf(result)));
    }
    FinishMoves(s, h, false, []);
    FinishMoves(s, h, true, []);
  }

  lemma ConcludeMoves(cfg: Config, s: State, h: nat, result: Forwarded, env: Env)
    requires h in s.handlers
    requires s.handlers[h].kind.Calling? ==> h in s.fw.calls && s.fw.calls[h].phase.Operating?
    ensures Moves(s, Conclude(cfg, s, h, result, env), h, result.OtherError? && !s.handlers[h].kind.Calling?)
    ensures Conclude(cfg, s, h, result, env).handlers[h].point.Ended?
  {
    hide Moves, ConcludeCall, ConcludeRelay;
    if s.handlers[h].kind.Calling? {
      ConcludeCallMoves(cfg, s, h, result, env);
    } else {
      ConcludeRelayMoves(cfg, s, h, result);
    }
  }

  lemma FailMoves(cfg: Config, s: State, h: nat, result: Forwarded, env: Env)
    requires h in s.handlers
    requires s.handlers[h].kind.Calling? ==> h in s.fw.calls && s.fw.calls[h].phase.Operating?
    ensures Moves(s, Fail(cfg, s, h, result, env), h, result.OtherError? && !s.handlers[h].kind.Calling?)
    ensures Fail(cfg, s, h, result, env).handlers[h].point.Ended?
  {
    hide RelayedOf, Conclude, InternalId;
    ConcludeMoves(cfg, Release(cfg, s, h), h, result, env);
  }

  /** The message of a request cannot be encoded under the internal id it would get. */
  predicate CannotEncode(cfg: Config, s: State, m: Message)
    requires "id" in m
  {
    !s.childFailed && !cfg.encodes(Obj(m["id" := InternalId(cfg, s.sequence + 1)]))
  }

  lemma ForwardMoves(cfg: Config, s: State, h: nat, env: Env)
    requires h in s.handlers
    requires s.handlers[h].kind.Calling? ==> h in s.fw.calls && s.fw.calls[h].phase.Operating?
    ensures var x := s.handlers[h];
            Moves(s, Forward(cfg, s, h, env), h,
                  "id" in x.message && !x.kind.Relaying? && !x.kind.Calling? && CannotEncode(cfg, s, x.message))
  {
    hide RelayedOf, Conclude, InternalId;
    var x := s.handlers[h];
    if s.childFailed {
      ConcludeMoves(cfg, s, h, Unavailable, env);
    } else if "id" in x.message && !x.kind.Relaying? {
      var t := Mint(cfg, s, h);
      if !cfg.encodes(Obj(ChildMessage(cfg, t.handlers[h]))) {
        ConcludeMoves(cfg, Release(cfg, t, h), h, OtherError, env);
      }
    }
  }

  lemma SettleMoves(cfg: Config, s: State, h: nat, env: Env)
    requires h in s.handlers && s.handlers[h].kind.Calling? && h in s.fw.calls
    requires Firewalls.IsSettled(s.fw.calls[h].phase)
    ensures Moves(s, Settle(cfg, s, h, env), h, false)
    ensures s.fw.calls[h].phase.Finished? ==> Settle(cfg, s, h, env).handlers[h].point.Ended?
  {
    if s.fw.calls[h].phase.Finished? {
      RefusalMoves(cfg, s, h, env);
    } else if s.fw.calls[h].phase.Ready? {
      hide RelayedOf, Forward;
      ForwardMoves(cfg, WithFirewall(s, Firewalls.Start(s.fw, h)), h, env);
    }
  }

  lemma RefusalIsAnswer(cfg: Config, s: State, h: nat, env: Env) returns (output: seq<Shown>)
    requires h in s.handlers && s.handlers[h].kind.Calling? && h in s.fw.calls
    requires s.fw.calls[h].phase.Finished?
    ensures Settle(cfg, s, h, env) == Finish(s, h, false, output)
    ensures |output| <= 1 && (output != [] ==> output[0].Answer?)
  {
    hide Finish, RefusalBody, Written;
    var x := s.handlers[h];
    var id := if "id" in x.message then x.message["id"] else Null;
    var body := RefusalBody(id, s.fw.calls[h].phase.outcome);
    WrittenIsAnswer(cfg, h, body, None);
    output := AnswerTo(cfg, h, x, body, None);
  }

  lemma RefusalMoves(cfg: Config, s: State, h: nat, env: Env)
    requires h in s.handlers && s.handlers[h].kind.Calling? && h in s.fw.calls
    requires s.fw.calls[h].phase.Finished?
    ensures Moves(s, Settle(cfg, s, h, env), h, false)
    ensures Settle(cfg, s, h, env).handlers[h].point.Ended?
  {
    hide Moves, Finish, Settle;
    var output := RefusalIsAnswer(cfg, s, h, env);
    FinishMoves(s, h, false, output);
    FinishEnds(s, h, output);
  }

  lemma FinishEnds(s: State, h: nat, output: seq<Shown>)
    requires h in s.handlers
    ensures var t := Finish(s, h, false, output); h in t.handlers && t.handlers[h].point.Ended?
  {}

  lemma AuthorizeMoves(cfg: Config, s: State, h: nat, call: ToolCall, env: Env)
    requires h in s.handlers && s.handlers[h].kind.Calling?
    ensures Moves(s, Authorize(cfg, s, h, call, env), h, false)
  {
    hide RelayedOf, Settle, ErrorResponse, TooDeep, Firewalls.EvaluateAndAudit, Firewalls.Create;
    var x := s.handlers[h];
    if NameIsValid(call.name) {
      var fw := Firewalls.EvaluateAndAudit(cfg.fw, Created(s, h, call), h, env.storeOk, env.recorded);
      SettleMoves(cfg, WithFirewall(s, fw), h, env);
    } else {
      var id := if "id" in x.message then x.message["id"] else Null;
      FinishMoves(s, h, false, AnswerTo(cfg, h, x, ErrorResponse(id, INTERNAL_ERROR, NOT_EXECUTED), None));
    }
  }

  function Created(s: State, h: nat, call: ToolCall): (fw: Firewalls.State)
    ensures fw == Firewalls.Create(s.fw, h, call)
    ensures h in fw.calls && Firewalls.MayEvaluate(fw.calls[h].phase)
  {
    Firewalls.Create(s.fw, h, call)
  }

  lemma ClaimThenMoves(cfg: Config, s: State, h: nat, call: Option<ToolCall>, env: Env)
    requires h in s.handlers && (s.handlers[h].kind.Calling? <==> call.Some?)
    requires s.handlers[h].kind.Calling? || s.handlers[h].kind.Requesting?
    ensures var x := s.handlers[h];
            Moves(s, ClaimThen(cfg, s, h, call, env), h,
                  call.None? && "id" in x.message && x.message["id"] !in s.clientPending
                      && CannotEncode(cfg, s, x.message))
  {
    hide RelayedOf, Forward, Authorize, ErrorResponse, TooDeep, InternalId;
    var x := s.handlers[h];
    if "id" in x.message && x.message["id"] in s.clientPending {
      FinishMoves(s, h, false,
          Written(cfg, h, ErrorResponse(x.message["id"], INVALID_REQUEST_ERROR, DUPLICATE_TEXT), None));
    } else {
      var t := if "id" in x.message then Claim(s, h) else s;
      if call.Some? { AuthorizeMoves(cfg, t, h, call.value, env); } else { ForwardMoves(cfg, t, h, env); }
    }
  }

  /**
   * A client line whose handler ends with an error of its own: an answer to a batch, or a request, that cannot be
   * encoded.
   */
  predicate LineEscapes(cfg: Config, s: State, line: Line)
  {
    match Classify(cfg, line)
    case RejectBatch(body) => !cfg.encodes(body)
    case Request =>
      && line.Object? && "id" in line.message && line.message["id"] !in s.clientPending
            && CannotEncode(cfg, s, line.message)
    case _ => false
  }

  lemma RequestHasId(cfg: Config, m: Message)
    ensures ClassifyMessage(cfg, m).Request? ==> "id" in m
  {
    hide ParseCall, IsCallLike;
  }

  lemma ClientLineMoves(cfg: Config, s: State, h: nat, line: Line, env: Env)
    requires h !in s.handlers
    ensures var category := Classify(cfg, line);
            Moves(Spawn(s, h, line, KindOf(category)), HandleClientLine(cfg, s, h, line, env), h,
                LineEscapes(cfg, s, line))
  {
    hide RelayedOf, Forward, ClaimThen, ClassifyMessage, TooDeep, InternalId, CannotEncode;
    var category := Classify(cfg, line);
    var t := Spawn(s, h, line, KindOf(category));
    if line.Object? { RequestHasId(cfg, line.message); }
    match category
    case Silent => FinishMoves(t, h, false, []);
    case Reject(body) => FinishMoves(t, h, false, Written(cfg, h, body, None));
    case RejectBatch(body) =>
      FinishMoves(t, h, false, [Answer(h, body, None)]);
      FinishMoves(t, h, true, []);
    case Relay => ForwardMoves(cfg, t, h, env);
    case Request =>
      ClaimThenMoves(cfg, t, h, None, env);
      assert CannotEncode(cfg, t, line.message) == CannotEncode(cfg, s, line.message)
          by { SameEncoding(cfg, s, t, line.message); }
    case ToolCallRequest(call) => ClaimThenMoves(cfg, t, h, Some(call), env);
  }

  lemma SameEncoding(cfg: Config, s: State, t: State, m: Message)
    requires "id" in m && s.childFailed == t.childFailed && s.sequence == t.sequence
    ensures CannotEncode(cfg, t, m) == CannotEncode(cfg, s, m)
  {}

  // ---------------------------------------------------------------- events

  function TargetOf(e: Event): Option<nat>
  {
    match e
    case ClientLine(h, _, _) => Some(h)
    case Human(h, _, _) => Some(h)
    case LineAppended(h) => Some(h)
    case WriteFinished(h, _, _) => Some(h)
    case WriteFailed(h, _) => Some(h)
    case WriteStalled(h) => Some(h)
    case AbortFinished(h, _) => Some(h)
    case ReplyTaken(h, _) => Some(h)
    case ReplyExpired(h, _) => Some(h)
    case ChildLine(_) => None
    case ChildExited => None
  }

  /**
   * The events that end a handler with an error nobody answers: the write of a message that is no guarded call fails
   * otherwise than by a timeout, or what should be written cannot be encoded.
   */
  predicate Escapes(cfg: Config, s: State, e: Event)
  {
    match e
    case ClientLine(_, line, _) => LineEscapes(cfg, s, line)
    case WriteFailed(h, _) => h in s.handlers && !s.handlers[h].kind.Calling?
    case _ => false
  }

  /**
   * What of the child's output is shown to the client as it is: any line within the limit that is not refused as
   * untrusted, except a lone response under an internal id.
   */
  predicate Passes(cfg: Config, line: Line)
  {
    !line.Oversized? && !line.Untrusted? && !(IsResponse(line) && IsInternalId(cfg, line.message["id"]))
  }

  predicate OthersStay(s: State, e: Event, t: State)
  {
    && (forall a | a in s.handlers && TargetOf(e) != Some(a) :: a in t.handlers && t.handlers[a] == s.handlers[a])
    && (forall a | a in t.handlers && TargetOf(e) != Some(a) :: a in s.handlers)
  }

  predicate TargetMoves(cfg: Config, s: State, e: Event, t: State)
  {
    TargetOf(e).Some? ==>
      var h := TargetOf(e).value;
      && h in t.handlers
      && MovesOn(s, if h in s.handlers then s.handlers[h] else t.handlers[h], t.handlers[h], Escapes(cfg, s, e))
  }

  predicate LogsStep(cfg: Config, s: State, e: Event, t: State)
  {
    && t.childFailed == (s.childFailed || e.WriteStalled?)
    && t.childOutput == (if e.ChildLine? then s.childOutput + [e.line] else s.childOutput)
    && t.childInput == (if e.LineAppended? && e.h in s.handlers then
                          s.childInput + [Sent(e.h, ChildLineOf(cfg, s.handlers[e.h]))]
                        else s.childInput)
    && RelayedOf(t.clientOutput)
       == RelayedOf(s.clientOutput) + if e.ChildLine? && Passes(cfg, e.line) then [|s.childOutput|] else []
  }

  predicate Step(cfg: Config, s: State, e: Event, t: State)
  {
    OthersStay(s, e, t) && TargetMoves(cfg, s, e, t) && LogsStep(cfg, s, e, t)
  }

  lemma MovesIsStep(cfg: Config, s: State, e: Event, t: State, h: nat)
    requires TargetOf(e) == Some(h) && !e.LineAppended? && !e.WriteStalled? && !e.ChildLine?
    requires h in s.handlers && Moves(s, t, h, Escapes(cfg, s, e))
    ensures Step(cfg, s, e, t)
  {
    hide RelayedOf, Escapes, Passes;
  }

  lemma SpawnedIsStep(cfg: Config, s: State, h: nat, line: Line, env: Env)
    requires h !in s.handlers
    ensures Step(cfg, s, ClientLine(h, line, env), HandleClientLine(cfg, s, h, line, env))
  {
    ClientLineMoves(cfg, s, h, line, env);
    hide *;
    SpawnMovesIsStep(cfg, s, h, line, env, KindOf(Classify(cfg, line)), HandleClientLine(cfg, s, h, line, env));
  }

  lemma SpawnMovesIsStep(cfg: Config, s: State, h: nat, line: Line, env: Env, kind: Kind, t: State)
    requires h !in s.handlers && h in Spawn(s, h, line, kind).handlers
    requires Moves(Spawn(s, h, line, kind), t, h, LineEscapes(cfg, s, line))
    ensures Step(cfg, s, ClientLine(h, line, env), t)
  {
    hide RelayedOf, LineEscapes, Passes, AtRest;
  }

  lemma ReadEffect(cfg: Config, s: State, line: Line)
    requires forall id | id in s.pending :: IsInternalId(cfg, id)
    ensures var t := ReadChildLine(cfg, s, line);
            && t.handlers == s.handlers && t.childFailed == s.childFailed && t.childInput == s.childInput
            && t.childOutput == s.childOutput + [line]
            && t.clientOutput == if Passes(cfg, line) then s.clientOutput + [Relayed(|s.childOutput|)]
                  else s.clientOutput
  {
    hide IsInternalId;
  }

  lemma ReadIsStep(cfg: Config, s: State, line: Line)
    requires Inv(cfg, s)
    ensures Step(cfg, s, ChildLine(line), ReadChildLine(cfg, s, line))
  {
    hide Inv, ReadChildLine, IsInternalId, Step, Passes, InternalId;
    InvIsInternal(cfg, s);
    ReadEffect(cfg, s, line);
    ExtendsIsStep(cfg, s, line, ReadChildLine(cfg, s, line));
  }

  lemma InvIsInternal(cfg: Config, s: State)
    requires Inv(cfg, s)
    ensures forall id | id in s.pending :: IsInternalId(cfg, id)
  {
    hide Firewalls.Inv, HandlerOk, TablesOk, LogsOk, InternalId;
    PendingIdsAreInternal(cfg, s);
  }

  lemma ExtendsIsStep(cfg: Config, s: State, line: Line, t: State)
    requires t.handlers == s.handlers && t.childFailed == s.childFailed && t.childInput == s.childInput
    requires t.childOutput == s.childOutput + [line]
    requires t.clientOutput == if Passes(cfg, line) then s.clientOutput + [Relayed(|s.childOutput|)]
               else s.clientOutput
    ensures Step(cfg, s, ChildLine(line), t)
  {
    hide RelayedOf, Passes, MovesOn, Escapes;
    OneMoreRelayed(s.clientOutput, |s.childOutput|);
  }

  lemma OneMoreRelayed(output: seq<Shown>, at: nat)
    ensures RelayedOf(output + [Relayed(at)]) == RelayedOf(output) + [at]
  {
    assert (output + [Relayed(at)])[..|output|] == output;
  }

  lemma HearHumanMoves(cfg: Config, s: State, h: nat, reply: HumanReply, env: Env)
    requires h in s.handlers && s.handlers[h].kind.Calling?
    requires h in s.fw.calls && s.fw.calls[h].phase.AwaitingApprover?
    ensures Moves(s, HearHuman(cfg, s, h, reply, env), h, false)
    ensures reply.Raises? ==> HearHuman(cfg, s, h, reply, env).handlers[h].point.Ended?
  {
    hide RelayedOf, Settle;
    SettleMoves(cfg, WithFirewall(MoveTo(s, h, Starting), HumanStep(cfg, s.fw, h, reply, env)), h, env);
  }

  lemma TakeReplyMoves(cfg: Config, s: State, h: nat, env: Env)
    requires h in s.handlers && FutureDone(cfg, s, s.handlers[h])
    requires s.handlers[h].kind.Calling? ==> h in s.fw.calls && s.fw.calls[h].phase.Operating?
    ensures Moves(s, TakeReply(cfg, s, h, env), h, false)
  {
    hide Moves, Fail, InternalId;
    match s.pending[InternalId(cfg, s.handlers[h].minted.value)]
    case Replied(reply, at) => FailMoves(cfg, s, h, Replying(reply, at), env);
    case Broken => FailMoves(cfg, s, h, Unavailable, env);
  }

  lemma FinishWriteMoves(cfg: Config, s: State, h: nat, expired: bool, env: Env)
    requires h in s.handlers
    requires s.handlers[h].kind.Calling? ==> h in s.fw.calls && s.fw.calls[h].phase.Operating?
    ensures Moves(s, FinishWrite(cfg, s, h, expired, env), h, false)
  {
    hide RelayedOf, Conclude, Release;
    if s.handlers[h].minted.None? {
      FailMoves(cfg, s, h, Delivered, env);
    } else if expired {
      FailMoves(cfg, s, h, TimedOut, env);
    }
  }

  lemma EscapesWhen(cfg: Config, s: State, e: Event)
    ensures e.WriteFailed? && e.h in s.handlers ==> (Escapes(cfg, s, e) <==> !s.handlers[e.h].kind.Calling?)
    ensures !e.WriteFailed? && !e.ClientLine? ==> !Escapes(cfg, s, e)
  {
    hide LineEscapes;
  }

  /** An await left for good: a failed write, an aborted one, or a reply that did not come in time. */
  lemma FailIsStep(cfg: Config, s: State, e: Event, h: nat, result: Forwarded, env: Env)
    requires h in s.handlers && (s.handlers[h].kind.Calling? ==> h in s.fw.calls && s.fw.calls[h].phase.Operating?)
    requires (e == WriteFailed(h, env) && result == OtherError)
             || ((e == AbortFinished(h, env) || e == ReplyExpired(h, env)) && result == TimedOut)
    ensures Step(cfg, s, e, Fail(cfg, s, h, result, env))
  {
    hide Step, Moves, Fail, Escapes;
    EscapesWhen(cfg, s, e);
    FailMoves(cfg, s, h, result, env);
    MovesIsStep(cfg, s, e, Fail(cfg, s, h, result, env), h);
  }

  lemma WrittenIsStep(cfg: Config, s: State, h: nat, expired: bool, env: Env)
    requires h in s.handlers && (s.handlers[h].kind.Calling? ==> h in s.fw.calls && s.fw.calls[h].phase.Operating?)
    ensures Step(cfg, s, WriteFinished(h, expired, env), FinishWrite(cfg, s, h, expired, env))
  {
    hide Step, Moves, FinishWrite, Escapes;
    EscapesWhen(cfg, s, WriteFinished(h, expired, env));
    FinishWriteMoves(cfg, s, h, expired, env);
    MovesIsStep(cfg, s, WriteFinished(h, expired, env), FinishWrite(cfg, s, h, expired, env), h);
  }

  lemma HeardIsStep(cfg: Config, s: State, h: nat, reply: HumanReply, env: Env)
    requires h in s.handlers && s.handlers[h].kind.Calling?
    requires h in s.fw.calls && s.fw.calls[h].phase.AwaitingApprover?
    ensures Step(cfg, s, Human(h, reply, env), HearHuman(cfg, s, h, reply, env))
  {
    hide Step, Moves, HearHuman, Escapes;
    EscapesWhen(cfg, s, Human(h, reply, env));
    HearHumanMoves(cfg, s, h, reply, env);
    MovesIsStep(cfg, s, Human(h, reply, env), HearHuman(cfg, s, h, reply, env), h);
  }

  lemma TakenIsStep(cfg: Config, s: State, h: nat, env: Env)
    requires h in s.handlers && FutureDone(cfg, s, s.handlers[h])
    requires s.handlers[h].kind.Calling? ==> h in s.fw.calls && s.fw.calls[h].phase.Operating?
    ensures Step(cfg, s, ReplyTaken(h, env), TakeReply(cfg, s, h, env))
  {
    hide Step, Moves, TakeReply, Escapes, InternalId;
    EscapesWhen(cfg, s, ReplyTaken(h, env));
    TakeReplyMoves(cfg, s, h, env);
    MovesIsStep(cfg, s, ReplyTaken(h, env), TakeReply(cfg, s, h, env), h);
  }

  /**
   * What every event does: it moves at most one handler, to a point of rest, and extends the logs by what it exchanges.
   */
  lemma NextIsStep(cfg: Config, s: State, e: Event)
    requires Inv(cfg, s) && Enabled(cfg, s, e)
    ensures AllReady(s) && Step(cfg, s, e, Next(cfg, s, e))
  {
    hide Inv, Step, HandleClientLine, HearHuman, Append, FinishWrite, Fail, StallWrite, TakeReply, ReadChildLine,
        ChildExits, InternalId, AllReady, FutureDone;
    InvIsReady(cfg, s);
    if TargetOf(e).Some? && !e.ClientLine? {
      ReadyCall(s, TargetOf(e).value);
    }
    match e
    case ClientLine(h, line, env) => SpawnedIsStep(cfg, s, h, line, env);
    case Human(h, reply, env) => HeardIsStep(cfg, s, h, reply, env);
    case LineAppended(h) => AppendIsStep(cfg, s, h);
    case WriteFinished(h, expired, env) => WrittenIsStep(cfg, s, h, expired, env);
    case WriteFailed(h, env) => FailIsStep(cfg, s, e, h, OtherError, env);
    case WriteStalled(h) => StallIsStep(cfg, s, h);
    case AbortFinished(h, env) => FailIsStep(cfg, s, e, h, TimedOut, env);
    case ReplyTaken(h, env) => TakenIsStep(cfg, s, h, env);
    case ReplyExpired(h, env) => FailIsStep(cfg, s, e, h, TimedOut, env);
    case ChildLine(line) => ReadIsStep(cfg, s, line);
    case ChildExited => ExitIsStep(cfg, s);
  }

  lemma AppendIsStep(cfg: Config, s: State, h: nat)
    requires h in s.handlers
    ensures Step(cfg, s, LineAppended(h), Append(cfg, s, h))
  {
    hide RelayedOf, InternalId;
  }

  lemma StallIsStep(cfg: Config, s: State, h: nat)
    requires h in s.handlers
    ensures Step(cfg, s, WriteStalled(h), StallWrite(s, h))
  {
    hide RelayedOf;
  }

  lemma ExitIsStep(cfg: Config, s: State)
    ensures Step(cfg, s, ChildExited, ChildExits(s))
  {
    hide RelayedOf;
  }

  lemma RunIsStep(cfg: Config, states: seq<State>, events: seq<Event>, i: nat)
    requires IsRun(cfg, states, events) && i < |events|
    ensures Inv(cfg, states[i]) && Step(cfg, states[i], events[i], states[i + 1])
  {
    RunKeepsInv(cfg, states, events, i);
    RunTakes(cfg, states, events, i);
    hide *;
    TakesIsStep(cfg, states[i], events[i], states[i + 1]);
  }

  lemma TakesIsStep(cfg: Config, s: State, e: Event, t: State)
    requires Inv(cfg, s) && Takes(cfg, s, e, t)
    ensures Step(cfg, s, e, t)
  {
    hide Inv, Next, Enabled, AllReady, Step;
    NextIsStep(cfg, s, e);
  }

  // ---------------------------------------------------------------- answers

  predicate Escaped(s: State, h: nat) { h in s.handlers && s.handlers[h].point == Ended(true) }

  ghost predicate EscapesIn(cfg: Config, states: seq<State>, events: seq<Event>, h: nat, n: nat)
    requires n <= |events| && n <= |states|
  {
    exists i | 0 <= i < n :: TargetOf(events[i]) == Some(h) && Escapes(cfg, states[i], events[i])
  }

  lemma EscapedStep(cfg: Config, s: State, e: Event, t: State, h: nat)
    requires Step(cfg, s, e, t) && Takes(cfg, s, e, t)
    ensures Escaped(t, h) <==> Escaped(s, h) || (TargetOf(e) == Some(h) && Escapes(cfg, s, e))
  {
    hide LogsStep, Escapes, FutureDone, Next, AllReady;
  }

  /** A handler has ended unanswered by an error exactly when one of the events that do so happened to it. */
  lemma {:induction false} EscapedIff(cfg: Config, states: seq<State>, events: seq<Event>, h: nat, n: nat)
    requires IsRun(cfg, states, events) && n <= |events|
    ensures Escaped(states[n], h) <==> EscapesIn(cfg, states, events, h, n)
  {
    hide IsRun, Takes, Step, Escapes, Inv, Initial;
    RunStarts(cfg, states, events);
    if n > 0 {
      EscapedIff(cfg, states, events, h, n - 1);
      RunIsStep(cfg, states, events, n - 1);
      RunTakes(cfg, states, events, n - 1);
      EscapedStep(cfg, states[n - 1], events[n - 1], states[n], h);
    }
  }

  lemma RunReaches(cfg: Config, states: seq<State>, events: seq<Event>, n: nat)
    requires IsRun(cfg, states, events) && n <= |events|
    ensures Reached(cfg, states[n])
  {
    hide Next, Enabled, AllReady, Initial;
    assert IsRun(cfg, states[..n + 1], events[..n]);
    assert states[..n + 1][|events[..n]|] == states[n];
  }

  /**
   * In every run a handler never answers twice and never before it ends; one that claimed an id and has ended has
   * answered exactly once unless its request could not be encoded under its internal id or its write failed otherwise
   * than by a timeout. Neither ever leaves a tools/call unanswered.
   */
  lemma AnsweredExactlyOnce(cfg: Config, states: seq<State>, events: seq<Event>, h: nat, n: nat)
    requires IsRun(cfg, states, events) && n <= |events| && h in states[n].handlers
    ensures var x, answers := states[n].handlers[h], AnswersBy(states[n].clientOutput, h);
            && answers <= 1
            && (!x.point.Ended? ==> answers == 0)
            && (x.point.Ended? && x.claimed && "id" in x.message && cfg.encodes(TooDeep(x.message["id"])) ==>
                  (answers == 1 <==> !EscapesIn(cfg, states, events, h, n)))
            && (x.kind.Calling? ==> !EscapesIn(cfg, states, events, h, n))
  {
    RunReaches(cfg, states, events, n);
    EscapedIff(cfg, states, events, h, n);
    hide IsRun, Reached, AnswersBy, EscapesIn, TooDeep;
    AnsweredUnlessEscaped(cfg, states[n], h);
  }

  lemma PingRun(cfg: Config, env: Env) returns (states: seq<State>, events: seq<Event>)
    requires forall v :: cfg.encodes(v)
    ensures IsRun(cfg, states, events) && |events| == 1 && |states| == 2
    ensures states[1] == HandleClientLine(cfg, Initial(cfg), 0, Object(PING), env)
    ensures var s := states[1];
            && 0 in s.handlers && HoldsClaim(s.handlers[0]) && s.handlers[0].message == PING
            && s.handlers[0].kind.Requesting? && s.handlers[0].point == Writing(false)
                  && s.handlers[0].minted == Some(1)
            && s.pending == map[InternalId(cfg, 1) := Waiting] && s.clientOutput == [] && s.childOutput == []
  {
    hide IsRun, HandleClientLine, AllReady, InternalId, Initial, HoldsClaim;
    PingIsForwarded(cfg, env);
    NothingHandled(cfg);
    StartRun(cfg);
    var first := ClientLine(0, Object(PING), env);
    ExtendRun(cfg, [Initial(cfg)], [], first);
    states, events := [Initial(cfg)] + [HandleClientLine(cfg, Initial(cfg), 0, Object(PING), env)], [] + [first];
  }

  /** It does happen: the write of a claimed request fails, its handler ends, and the request is never answered. */
  lemma FailedWriteIsUnanswered(cfg: Config, env: Env) returns (states: seq<State>, events: seq<Event>)
    requires forall v :: cfg.encodes(v)
    ensures IsRun(cfg, states, events) && |events| == 2
    ensures var s := states[2];
            && 0 in s.handlers && s.handlers[0].claimed && s.handlers[0].point == Ended(true)
            && s.handlers[0].message == PING && AnswersBy(s.clientOutput, 0) == 0
  {
    hide IsRun, HandleClientLine, Fail, AllReady, CallReady, InternalId, AnswersBy, Initial;
    var second := WriteFailed(0, env);
    states, events := PingRun(cfg, env);
    ExtendRun(cfg, states, events, second);
    FailedRelay(cfg, states[1], 0, env);
    states, events := states + [Fail(cfg, states[1], 0, OtherError, env)], events + [second];
    NoAnswers([], 0);
  }

  lemma NothingHandled(cfg: Config)
    ensures Initial(cfg).handlers == map[]
  {}

  lemma FailedRelay(cfg: Config, s: State, h: nat, env: Env)
    requires h in s.handlers && !s.handlers[h].kind.Calling?
    ensures var t := Fail(cfg, s, h, OtherError, env);
            && t.clientOutput == s.clientOutput
            && h in t.handlers && t.handlers[h] == s.handlers[h].(point := Ended(true))
  {
    hide InternalId;
  }

  // ---------------------------------------------------------------- a stalled write, the child's exit, and the clock

  /**
   * Once a write has stalled, no handler starts to write any more: only writes already begun can still reach the child.
   */
  lemma {:induction false} StalledForGood(cfg: Config, states: seq<State>, events: seq<Event>, i: nat, n: nat)
    requires IsRun(cfg, states, events) && i <= n <= |events| && states[i].childFailed
    ensures states[n].childFailed
    ensures forall h :: At(states[n], h, Writing(false)) ==> At(states[i], h, Writing(false))
    ensures states[i].childInput <= states[n].childInput
    ensures forall k | |states[i].childInput| <= k < |states[n].childInput| ::
              At(states[i], states[n].childInput[k].handler, Writing(false))
  {
    hide IsRun, Step, Takes, Inv, At;
    if n > i {
      StalledForGood(cfg, states, events, i, n - 1);
      RunIsStep(cfg, states, events, n - 1);
      RunTakes(cfg, states, events, n - 1);
      StalledStep(cfg, states[n - 1], events[n - 1], states[n]);
    }
  }

  lemma StalledStep(cfg: Config, s: State, e: Event, t: State)
    requires Step(cfg, s, e, t) && Takes(cfg, s, e, t) && s.childFailed
    ensures t.childFailed
    ensures forall h :: At(t, h, Writing(false)) ==> At(s, h, Writing(false))
    ensures s.childInput <= t.childInput
    ensures forall k | |s.childInput| <= k < |t.childInput| :: At(s, t.childInput[k].handler, Writing(false))
  {
    hide RelayedOf, Passes, Escapes, FutureDone, ChildLineOf, Next, AllReady;
  }

  lemma StaysAtRest(cfg: Config, s: State, e: Event, t: State)
    requires Step(cfg, s, e, t) && forall h | h in s.handlers :: AtRest(s.handlers[h].point)
    ensures forall h | h in t.handlers :: AtRest(t.handlers[h].point)
  {
    hide LogsStep, Escapes, AtRest;
  }

  /** Every handler of every state of a run is suspended at one of its awaits, or has ended. */
  lemma {:induction false} HandlersAreAtRest(cfg: Config, states: seq<State>, events: seq<Event>, n: nat)
    requires IsRun(cfg, states, events) && n <= |events|
    ensures forall h | h in states[n].handlers :: AtRest(states[n].handlers[h].point)
  {
    hide Takes, Step, Inv, AtRest, Initial;
    if n == 0 {
      NothingHandled(cfg);
    } else {
      HandlersAreAtRest(cfg, states, events, n - 1);
      RunIsStep(cfg, states, events, n - 1);
      StaysAtRest(cfg, states[n - 1], events[n - 1], states[n]);
    }
  }

  /** The events that need neither the child nor the client: time passes, or the human's wait breaks off. */
  predicate ByItself(e: Event)
  {
    || e.WriteStalled? || e.AbortFinished? || e.ReplyExpired?
    || (e.Human? && e.reply.Raises?)
  }

  /**
   * From every state of every run each suspended handler can be brought to its end by at most two such events, and then
   * it has ended as it should: no error escapes it. The child need not do anything.
   */
  lemma EveryHandlerCanEnd(cfg: Config, states: seq<State>, events: seq<Event>, h: nat, env: Env)
      returns (states': seq<State>, events': seq<Event>)
    requires IsRun(cfg, states, events) && h in states[|events|].handlers
    requires !states[|events|].handlers[h].point.Ended?
    ensures IsRun(cfg, states', events')
    ensures events <= events' && |events'| <= |events| + 2
    ensures forall k | |events| <= k < |events'| :: ByItself(events'[k])
    ensures h in states'[|events'|].handlers && states'[|events'|].handlers[h].point == Ended(false)
  {
    HandlersAreAtRest(cfg, states, events, |events|);
    states', events' := states, events;
    var s := states[|events|];
    hide IsRun, Next;
    if s.handlers[h].point.Writing? {
      states', events' := OneMore(cfg, states, events, h);
    }
    var t := states'[|events'|];
    var last :=
      match t.handlers[h].point
      case AwaitingHuman => Human(h, Raises, env)
      case AwaitingReply => ReplyExpired(h, env)
      case _ => AbortFinished(h, env);
    states', events' := LastOne(cfg, states', events', last, h);
  }

  lemma StallNext(cfg: Config, s: State, h: nat)
    requires Enabled(cfg, s, WriteStalled(h)) && AllReady(s)
    ensures At(Next(cfg, s, WriteStalled(h)), h, Aborting)
  {
    hide AllReady;
  }

  lemma OneMore(cfg: Config, states: seq<State>, events: seq<Event>, h: nat)
      returns (states': seq<State>, events': seq<Event>)
    requires IsRun(cfg, states, events) && Enabled(cfg, states[|events|], WriteStalled(h))
    ensures IsRun(cfg, states', events') && events' == events + [WriteStalled(h)] && |states'| == |events'| + 1
    ensures At(states'[|events'|], h, Aborting)
  {
    hide IsRun, Next, Enabled, AllReady, At;
    ExtendRun(cfg, states, events, WriteStalled(h));
    var s := states[|events|];
    StallNext(cfg, s, h);
    states', events' := states + [Next(cfg, s, WriteStalled(h))], events + [WriteStalled(h)];
  }

  lemma LastOne(cfg: Config, states: seq<State>, events: seq<Event>, e: Event, h: nat)
      returns (states': seq<State>, events': seq<Event>)
    requires IsRun(cfg, states, events) && Enabled(cfg, states[|events|], e) && TargetOf(e) == Some(h)
    requires e.AbortFinished? || e.ReplyExpired? || (e.Human? && e.reply.Raises?)
    ensures IsRun(cfg, states', events') && events' == events + [e]
    ensures h in states'[|events'|].handlers && states'[|events'|].handlers[h].point == Ended(false)
  {
    hide IsRun, Next, Enabled, AllReady;
    ExtendRun(cfg, states, events, e);
    var s := states[|events|];
    var t := Next(cfg, s, e);
    states', events' := states + [t], events + [e];
    EndsNow(cfg, s, e, h);
  }

  lemma EndsNow(cfg: Config, s: State, e: Event, h: nat)
    requires Enabled(cfg, s, e) && AllReady(s) && TargetOf(e) == Some(h)
    requires e.AbortFinished? || e.ReplyExpired? || (e.Human? && e.reply.Raises?)
    ensures h in Next(cfg, s, e).handlers && Next(cfg, s, e).handlers[h].point == Ended(false)
  {
    hide Fail, HearHuman, AllReady, RelayedOf, CallReady, FutureDone;
    ReadyCall(s, h);
    match e
    case AbortFinished(_, env) => FailMoves(cfg, s, h, TimedOut, env);
    case ReplyExpired(_, env) => FailMoves(cfg, s, h, TimedOut, env);
    case Human(_, reply, env) => HearHumanMoves(cfg, s, h, reply, env);
  }

  /**
   * The child's exit wakes every handler that awaits a reply, and tells those not yet answered that there will be none.
   */
  lemma ExitWakesEveryone(cfg: Config, s: State, h: nat, env: Env)
    requires Reached(cfg, s) && At(s, h, AwaitingReply)
    ensures var t := ChildExits(s);
            && t.pending.Keys == s.pending.Keys
            && (forall id | id in s.pending ::
                  t.pending[id] == if s.pending[id].Waiting? then Broken else s.pending[id])
            && EndsBy(cfg, t, ReplyTaken(h, env), h)
  {
    hide Inv, InternalId, AllReady, EndsBy, Reached, FutureDone;
    ReachedInv(cfg, s);
    ExitSettles(cfg, s, h);
    ExitKeepsInv(cfg, s);
    InvIsReady(cfg, ChildExits(s));
    TakenEnds(cfg, ChildExits(s), h, env);
  }

  lemma ExitSettles(cfg: Config, s: State, h: nat)
    requires Inv(cfg, s) && At(s, h, AwaitingReply)
    ensures At(ChildExits(s), h, AwaitingReply) && FutureDone(cfg, ChildExits(s), s.handlers[h])
  {
    hide Inv, InternalId;
    AwaitedIsPending(cfg, s, h);
  }

  /** The event can happen, and ends the handler as it should. */
  predicate EndsBy(cfg: Config, s: State, e: Event, h: nat)
  {
    && Enabled(cfg, s, e) && AllReady(s)
    && h in Next(cfg, s, e).handlers && Next(cfg, s, e).handlers[h].point == Ended(false)
  }

  lemma AwaitedIsPending(cfg: Config, s: State, h: nat)
    requires Inv(cfg, s) && At(s, h, AwaitingReply)
    ensures var x := s.handlers[h]; x.minted.Some? && InternalId(cfg, x.minted.value) in s.pending
  {
    hide Firewalls.Inv, TablesOk, LogsOk, CountsOk, CallOk, ClassifyMessage, InternalId, FutureOk;
    assert HandlerOk(cfg, s, h);
  }

  lemma TakenEnds(cfg: Config, s: State, h: nat, env: Env)
    requires At(s, h, AwaitingReply) && FutureDone(cfg, s, s.handlers[h]) && AllReady(s)
    ensures EndsBy(cfg, s, ReplyTaken(h, env), h)
  {
    hide TakeReply, InternalId, RelayedOf, AllReady, FutureDone, CallReady;
    ReadyCall(s, h);
    TakenEnded(cfg, s, h, env);
  }

  lemma TakenEnded(cfg: Config, s: State, h: nat, env: Env)
    requires h in s.handlers && FutureDone(cfg, s, s.handlers[h])
    requires s.handlers[h].kind.Calling? ==> h in s.fw.calls && s.fw.calls[h].phase.Operating?
    ensures var t := TakeReply(cfg, s, h, env); h in t.handlers && t.handlers[h].point == Ended(false)
  {
    hide Fail, InternalId, RelayedOf;
    match s.pending[InternalId(cfg, s.handlers[h].minted.value)]
    case Replied(reply, at) => FailMoves(cfg, s, h, Replying(reply, at), env);
    case Broken => FailMoves(cfg, s, h, Unavailable, env);
  }
}
