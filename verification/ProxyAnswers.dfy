/** What the client is told, and what the child is sent, in their own words. */
module ProxyAnswers {
  import opened Json
  import opened Policies
  import opened Text
  import opened ProxyState
  import opened ProxyInvariant
  import opened ProxyRuns
  import opened ProxyEndings
  import opened ProxyLifecycle
  import opened ToolRequests
  import Firewalls
  import ProxySteps

  // ---------------------------------------------------------------- refusals of the policy

  /** What a call that never ran is answered with. */
  lemma RefusalsAreTold(id: Value, outcome: Firewalls.Outcome)
    ensures RefusalBody(id, outcome)
            == match outcome
               case CallBlocked(d) => PolicyText(id, "Tool call blocked by Agent Firewall", d)
               case NoApprover(d) =>
                 PolicyText(id, "tool call requires approval but no approver is configured", d)
               case _ => ErrorText(id, -32603, "internal firewall error; call not executed")
  {
    hide PolicyResponse, PolicyText, ErrorResponse, ErrorText;
    match outcome
    case CallBlocked(d) => PolicyResponseSays(id, CALL_BLOCKED, d);
    case NoApprover(d) => PolicyResponseSays(id, NO_APPROVER, d);
    case _ => ErrorResponseSays(id, INTERNAL_ERROR, NOT_EXECUTED);
  }

  /** What cannot be encoded is replaced by a shorter answer under the same id, or by nothing. */
  lemma WrittenSays(cfg: Config, h: nat, body: Value, source: Option<nat>)
    ensures var id := if body.Obj? && "id" in body.fields then body.fields["id"] else Null;
            var fallback := ErrorText(id, -32700, "response too deeply nested to encode");
            Written(cfg, h, body, source)
            == if cfg.encodes(body) then [Answer(h, body, source)]
               else if cfg.encodes(fallback) then [Answer(h, fallback, None)]
               else []
  {
    hide ErrorResponse, ErrorText;
    ErrorResponseSays(IdOf(body), PARSE_ERROR, "response too deeply nested to encode");
  }

  /**
   * What a tools/call is told at once that never reaches the policy: its id is in flight, or its name breaks a line.
   */
  lemma UnadmittedIsTold(cfg: Config, s: State, h: nat, m: Message, call: ToolCall, env: Env)
    requires ClassifyMessage(cfg, m) == ToolCallRequest(call) && "id" in m
    ensures var t, id := HandleClientLine(cfg, s, h, Object(m), env), m["id"];
            && (id in s.clientPending ==>
                  t.clientOutput
                  == s.clientOutput + Written(cfg, h, ErrorText(id, -32600, "Duplicate in-flight JSON-RPC id"), None))
            && (id !in s.clientPending && ('\n' in call.name || '\r' in call.name) ==>
                  t.clientOutput
                  == s.clientOutput
                     + Written(cfg, h, ErrorText(id, -32603, "internal firewall error; call not executed"), None))
  {
    hide ClassifyMessage, Settle, Firewalls.EvaluateAndAudit, Written, ErrorResponse, ErrorText;
    ErrorResponseSays(m["id"], INVALID_REQUEST_ERROR, DUPLICATE_TEXT);
    ErrorResponseSays(m["id"], INTERNAL_ERROR, NOT_EXECUTED);
  }

  // ---------------------------------------------------------------- the end of a request

  const UNRECORDED := "tool ran or was attempted but its audit record could not be written"

  /**
   * What the end of a forwarded request is told as: the child's reply under the client's id, or the error that it was.
   */
  function ToldOf(id: Value, result: Forwarded): Value
  {
    match result
    case Replying(reply, _) => Obj(reply["id" := id])
    case TimedOut => ErrorText(id, -32002, "timed out waiting for wrapped MCP server")
    case Unavailable => ErrorText(id, -32003, "wrapped MCP server is unavailable after a stalled write")
    case _ => ErrorText(id, -32603, "internal firewall error; call not executed")
  }

  lemma ForwardedBodySays(id: Value, result: Forwarded)
    ensures ForwardedBody(id, result) == ToldOf(id, result)
  {
    hide ErrorResponse, ErrorText;
    ErrorResponseSays(id, REQUEST_TIMEOUT_ERROR, "timed out waiting for wrapped MCP server");
    ErrorResponseSays(id, CHILD_UNAVAILABLE_ERROR, "wrapped MCP server is unavailable after a stalled write");
    ErrorResponseSays(id, INTERNAL_ERROR, NOT_EXECUTED);
  }

  /** A guarded call whose verdict could not be put on record is told that instead. */
  function Told(cfg: Config, h: nat, x: Handler, result: Forwarded, env: Env): seq<Shown>
    requires "id" in x.message
  {
    var id := x.message["id"];
    if x.kind.Calling? && cfg.fw.auditing && env.terminal != Firewalls.Recorded then
      Written(cfg, h, ErrorText(id, -32603, UNRECORDED), None)
    else Written(cfg, h, ToldOf(id, result), if result.Replying? then Some(result.at) else None)
  }

  predicate IsAnswered(x: Handler, result: Forwarded)
  {
    "id" in x.message && (x.kind.Calling? || (x.kind.Requesting? && !result.OtherError?))
  }

  lemma ConcludedIsTold(cfg: Config, s: State, h: nat, result: Forwarded, env: Env)
    requires h in s.handlers && IsAnswered(s.handlers[h], result)
    requires s.handlers[h].kind.Calling? ==> h in s.fw.calls && s.fw.calls[h].phase.Operating?
    ensures Conclude(cfg, s, h, result, env).clientOutput
            == s.clientOutput + Told(cfg, h, s.handlers[h], result, env)
  {
    hide ConcludeCall, ForwardedBody, ToldOf, Written, ErrorText;
    var id := s.handlers[h].message["id"];
    ForwardedBodySays(id, result);
    if s.handlers[h].kind.Calling? { CallIsTold(cfg, s, h, result, env); }
  }

  lemma CallIsTold(cfg: Config, s: State, h: nat, result: Forwarded, env: Env)
    requires h in s.handlers && "id" in s.handlers[h].message && s.handlers[h].kind.Calling?
    requires h in s.fw.calls && s.fw.calls[h].phase.Operating?
    ensures ConcludeCall(cfg, s, h, result, env).clientOutput
            == s.clientOutput + Told(cfg, h, s.handlers[h], result, env)
  {
    hide ForwardedBody, ToldOf, Written, ErrorText, ErrorResponse, Firewalls.Audit, Firewalls.EndOperation,
        IsToolFailure;
    var id := s.handlers[h].message["id"];
    ForwardedBodySays(id, result);
    ErrorResponseSays(id, INTERNAL_ERROR, NOT_RECORDED);
    TerminalPhase(cfg, s.fw, h, result.Delivered? || (result.Replying? && !IsToolFailure(result.reply)), env.terminal);
  }

  lemma FailIsTold(cfg: Config, s: State, h: nat, result: Forwarded, env: Env)
    requires h in s.handlers && IsAnswered(s.handlers[h], result)
    requires s.handlers[h].kind.Calling? ==> h in s.fw.calls && s.fw.calls[h].phase.Operating?
    ensures Fail(cfg, s, h, result, env).clientOutput == s.clientOutput + Told(cfg, h, s.handlers[h], result, env)
  {
    hide Conclude, InternalId, Release, Told, IsAnswered;
    ReleasedAlike(cfg, s, h, result, env);
    ConcludedIsTold(cfg, Release(cfg, s, h), h, result, env);
  }

  lemma ReleasedAlike(cfg: Config, s: State, h: nat, result: Forwarded, env: Env)
    requires h in s.handlers && IsAnswered(s.handlers[h], result)
    ensures var u := Release(cfg, s, h);
            && h in u.handlers && u.fw == s.fw && u.clientOutput == s.clientOutput
            && u.handlers[h].kind == s.handlers[h].kind && IsAnswered(u.handlers[h], result)
            && "id" in s.handlers[h].message && "id" in u.handlers[h].message
            && Told(cfg, h, u.handlers[h], result, env) == Told(cfg, h, s.handlers[h], result, env)
  {
    hide InternalId, Written, ErrorText, ToldOf;
  }

  /** How the wait for a request's reply ended. */
  function ResultOf(cfg: Config, s: State, e: Event, h: nat): Forwarded
    requires h in s.handlers
  {
    var x := s.handlers[h];
    if e.WriteFailed? then OtherError
    else if !e.ReplyTaken? then TimedOut
    else if !FutureDone(cfg, s, x) then Unavailable
    else
      match s.pending[InternalId(cfg, x.minted.value)]
      case Replied(reply, at) => Replying(reply, at)
      case _ => Unavailable
  }

  lemma TakenIsTold(cfg: Config, s: State, h: nat, env: Env)
    requires h in s.handlers && FutureDone(cfg, s, s.handlers[h])
    requires IsAnswered(s.handlers[h], ResultOf(cfg, s, ReplyTaken(h, env), h))
    requires s.handlers[h].kind.Calling? ==> h in s.fw.calls && s.fw.calls[h].phase.Operating?
    ensures TakeReply(cfg, s, h, env).clientOutput
            == s.clientOutput + Told(cfg, h, s.handlers[h], ResultOf(cfg, s, ReplyTaken(h, env), h), env)
  {
    hide Fail, InternalId, Told;
    match s.pending[InternalId(cfg, s.handlers[h].minted.value)]
    case Replied(reply, at) => FailIsTold(cfg, s, h, Replying(reply, at), env);
    case Broken => FailIsTold(cfg, s, h, Unavailable, env);
  }

  /**
   * However the wait for a reply ends, what the client is told at that moment: the reply itself, the timeout, the dead
   * child, the error; or that the verdict could not be put on record.
   */
  lemma EndIsTold(cfg: Config, s: State, e: Event, t: State, h: nat)
    requires Inv(cfg, s) && Takes(cfg, s, e, t) && IsEnding(e)
    requires h in s.handlers && Ending(s, e, h) && s.handlers[h].minted.Some?
    requires IsAnswered(s.handlers[h], ResultOf(cfg, s, e, h))
    ensures t.clientOutput == s.clientOutput + Told(cfg, h, s.handlers[h], ResultOf(cfg, s, e, h), e.env)
  {
    hide Inv, Fail, TakeReply, FinishWrite, InternalId, AllReady, FutureDone, Told, HandleClientLine, HearHuman,
        ReadChildLine, Release, Conclude;
    InvIsReady(cfg, s);
    ReadyCall(s, h);
    match e
    case WriteFinished(_, expired, env) => FinishIsTold(cfg, s, h, expired, env);
    case WriteFailed(_, env) => FailIsTold(cfg, s, h, OtherError, env);
    case AbortFinished(_, env) => FailIsTold(cfg, s, h, TimedOut, env);
    case ReplyExpired(_, env) => FailIsTold(cfg, s, h, TimedOut, env);
    case ReplyTaken(_, env) => TakenIsTold(cfg, s, h, env);
  }

  lemma FinishIsTold(cfg: Config, s: State, h: nat, expired: bool, env: Env)
    requires h in s.handlers && s.handlers[h].minted.Some? && expired && IsAnswered(s.handlers[h], TimedOut)
    requires s.handlers[h].kind.Calling? ==> h in s.fw.calls && s.fw.calls[h].phase.Operating?
    ensures FinishWrite(cfg, s, h, expired, env).clientOutput
            == s.clientOutput + Told(cfg, h, s.handlers[h], TimedOut, env)
  {
    hide Conclude, InternalId, Told, Release;
    FailIsTold(cfg, s, h, TimedOut, env);
  }

  // ---------------------------------------------------------------- what the child is sent

  lemma LineOfNew(cfg: Config, s: State, h: nat, line: Line, env: Env)
    requires h !in s.handlers
    ensures var t := HandleClientLine(cfg, s, h, line, env); h in t.handlers && t.handlers[h].line == line
  {
    hide HandleClientLine, Classify, KindOf, LineEscapes, RelayedOf;
    ClientLineMoves(cfg, s, h, line, env);
  }

  lemma LineStays(cfg: Config, s: State, e: Event, t: State, h: nat)
    requires Takes(cfg, s, e, t) && Step(cfg, s, e, t) && h in t.handlers
    ensures if h in s.handlers then t.handlers[h].line == s.handlers[h].line
            else e.ClientLine? && e.h == h && t.handlers[h].line == e.line
  {
    hide LogsStep, Escapes, AtRest, AllReady, HandleClientLine, HearHuman, FinishWrite, Fail, TakeReply, FutureDone,
        ReadChildLine;
    if h !in s.handlers && TargetOf(e) == Some(h) && e.ClientLine? { LineOfNew(cfg, s, h, e.line, e.env); }
  }

  ghost predicate Received(events: seq<Event>, h: nat, line: Line, n: nat)
    requires n <= |events|
  {
    exists i | 0 <= i < n :: events[i].ClientLine? && events[i].h == h && events[i].line == line
  }

  /** Every handler handles the one client line it was started for. */
  lemma {:induction false} HandlesItsLine(cfg: Config, states: seq<State>, events: seq<Event>, n: nat, h: nat)
    requires IsRun(cfg, states, events) && n <= |events| && h in states[n].handlers
    ensures Received(events, h, states[n].handlers[h].line, n)
  {
    hide IsRun, Takes, Step, Inv, Initial;
    RunStarts(cfg, states, events);
    if n > 0 {
      RunTakes(cfg, states, events, n - 1);
      RunIsStep(cfg, states, events, n - 1);
      LineStays(cfg, states[n - 1], events[n - 1], states[n], h);
      if h in states[n - 1].handlers {
        HandlesItsLine(cfg, states, events, n - 1, h);
      } else {
        assert events[n - 1].ClientLine? && events[n - 1].h == h && events[n - 1].line == states[n].handlers[h].line;
      }
    }
  }

  /**
   * Whatever is written to the child is a line the client sent: as it came, or, for a request, the same message with
   * nothing changed but its id, which is the prefix and the request's number.
   */
  lemma WrittenAsReceived(cfg: Config, states: seq<State>, events: seq<Event>, n: nat, i: nat)
    requires IsRun(cfg, states, events) && n <= |events| && i < |states[n].childInput|
    ensures exists line ::
              && Received(events, states[n].childInput[i].handler, line, n)
              && line.Object?
              && var sent := states[n].childInput[i].line;
                 || sent == line
                 || exists k :: "id" in line.message
                                && sent == Object(line.message["id" := Str(cfg.prefix + DecimalText(k))])
  {
    hide IsRun, Inv, ShapeOk, Received;
    RunStarts(cfg, states, events);
    RunKeepsInv(cfg, states, events, n);
    var s := states[n];
    SentHolds(cfg, s, i);
    var h := s.childInput[i].handler;
    ShapeHolds(cfg, s, h);
    HandlesItsLine(cfg, states, events, n, h);
    SentIs(cfg, s.handlers[h]);
    assert Received(events, h, s.handlers[h].line, n);
  }

  lemma SentIs(cfg: Config, x: Handler)
    requires ShapeOk(cfg, x) && !x.kind.Rejecting?
    ensures x.line.Object?
    ensures x.minted.None? ==> ChildLineOf(cfg, x) == x.line
    ensures x.minted.Some? ==>
              && "id" in x.line.message
              && ChildLineOf(cfg, x)
                 == Object(x.line.message["id" := Str(cfg.prefix + DecimalText(x.minted.value))])
  {
    hide ClassifyMessage, DecimalText;
  }
}
