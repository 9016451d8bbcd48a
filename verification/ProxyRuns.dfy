/**
 * What holds in every run of the proxy: any interleaving of handlers, child lines, timeouts, stalls and the child's
 * exit.
 */
module ProxyRuns {
  import opened Json
  import opened Policies
  import opened Text
  import opened ProxyState
  import opened ProxyInvariant
  import opened ProxySteps
  import opened ToolRequests
  import Budgets
  import Firewalls
  import FirewallRuns
  import GuardedCalls

  datatype Event =
    | ClientLine(h: nat, line: Line, env: Env)
    | Human(h: nat, reply: HumanReply, env: Env)
    | LineAppended(h: nat)
    | WriteFinished(h: nat, expired: bool, env: Env)
    | WriteFailed(h: nat, env: Env)
    | WriteStalled(h: nat)
    | AbortFinished(h: nat, env: Env)
    | ReplyTaken(h: nat, env: Env)
    | ReplyExpired(h: nat, env: Env)
    | ChildLine(line: Line)
    | ChildExited

  predicate FutureDone(cfg: Config, s: State, x: Handler)
  {
    && x.minted.Some?
    && InternalId(cfg, x.minted.value) in s.pending
    && !s.pending[InternalId(cfg, x.minted.value)].Waiting?
  }

  predicate At(s: State, h: nat, point: Point) { h in s.handlers && s.handlers[h].point == point }

  predicate Enabled(cfg: Config, s: State, e: Event)
  {
    match e
    case ClientLine(h, _, _) => h !in s.handlers
    case Human(h, _, _) => At(s, h, AwaitingHuman)
    case LineAppended(h) => At(s, h, Writing(false))
    case WriteFinished(h, _, _) => At(s, h, Writing(true))
    case WriteFailed(h, _) => At(s, h, Writing(false)) || At(s, h, Writing(true))
    case WriteStalled(h) => At(s, h, Writing(false)) || At(s, h, Writing(true))
    case AbortFinished(h, _) => At(s, h, Aborting)
    case ReplyTaken(h, _) => At(s, h, AwaitingReply) && FutureDone(cfg, s, s.handlers[h])
    case ReplyExpired(h, _) => At(s, h, AwaitingReply)
    case ChildLine(_) => true
    case ChildExited => true
  }

  /** The firewall's call of a suspended tools/call is where the protocol needs it; true of every reachable state. */
  predicate CallReady(s: State, h: nat)
  {
    && h in s.handlers
    && (s.handlers[h].point.AwaitingHuman? ==>
          s.handlers[h].kind.Calling? && h in s.fw.calls && s.fw.calls[h].phase.AwaitingApprover?)
    && (InFlight(s.handlers[h].point) && s.handlers[h].kind.Calling? ==>
          h in s.fw.calls && s.fw.calls[h].phase.Operating?)
  }

  predicate AllReady(s: State) { forall h | h in s.handlers :: CallReady(s, h) }

  lemma ReadyCall(s: State, h: nat)
    requires AllReady(s) && h in s.handlers
    ensures CallReady(s, h)
    ensures s.handlers[h].point.AwaitingHuman? ==>
              s.handlers[h].kind.Calling? && h in s.fw.calls && s.fw.calls[h].phase.AwaitingApprover?
    ensures InFlight(s.handlers[h].point) && s.handlers[h].kind.Calling? ==>
              h in s.fw.calls && s.fw.calls[h].phase.Operating?
  {}

  function Next(cfg: Config, s: State, e: Event): State
    requires Enabled(cfg, s, e) && AllReady(s)
  {
    match e
    case ClientLine(h, line, env) => HandleClientLine(cfg, s, h, line, env)
    case Human(h, reply, env) => assert CallReady(s, h); HearHuman(cfg, s, h, reply, env)
    case LineAppended(h) => Append(cfg, s, h)
    case WriteFinished(h, expired, env) => assert CallReady(s, h); FinishWrite(cfg, s, h, expired, env)
    case WriteFailed(h, env) => assert CallReady(s, h); Fail(cfg, s, h, OtherError, env)
    case WriteStalled(h) => StallWrite(s, h)
    case AbortFinished(h, env) => assert CallReady(s, h); Fail(cfg, s, h, TimedOut, env)
    case ReplyTaken(h, env) => assert CallReady(s, h); TakeReply(cfg, s, h, env)
    case ReplyExpired(h, env) => assert CallReady(s, h); Fail(cfg, s, h, TimedOut, env)
    case ChildLine(line) => ReadChildLine(cfg, s, line)
    case ChildExited => ChildExits(s)
  }

  lemma InvIsReady(cfg: Config, s: State)
    requires Inv(cfg, s)
    ensures AllReady(s)
  {
    forall h | h in s.handlers ensures CallReady(s, h) {
      assert HandlerOk(cfg, s, h);
    }
  }

  lemma NextKeepsInv(cfg: Config, s: State, e: Event)
    requires Inv(cfg, s) && Enabled(cfg, s, e)
    ensures AllReady(s) && Inv(cfg, Next(cfg, s, e))
  {
    hide Inv, HandleClientLine, HearHuman, Append, FinishWrite, Fail, StallWrite, TakeReply, ReadChildLine, ChildExits,
        InternalId;
    InvIsReady(cfg, s);
    match e
    case ClientLine(h, line, env) => HandleClientLineKeepsInv(cfg, s, h, line, env);
    case Human(h, reply, env) => HearHumanKeepsInv(cfg, s, h, reply, env);
    case LineAppended(h) => AppendKeepsInv(cfg, s, h);
    case WriteFinished(h, expired, env) => FinishWriteKeepsInv(cfg, s, h, expired, env);
    case WriteFailed(h, env) => FailKeepsInv(cfg, s, h, OtherError, env);
    case WriteStalled(h) => StallKeepsInv(cfg, s, h);
    case AbortFinished(h, env) => FailKeepsInv(cfg, s, h, TimedOut, env);
    case ReplyTaken(h, env) => TakeReplyKeepsInv(cfg, s, h, env);
    case ReplyExpired(h, env) => FailKeepsInv(cfg, s, h, TimedOut, env);
    case ChildLine(line) => ReadKeepsInv(cfg, s, line);
    case ChildExited => ExitKeepsInv(cfg, s);
  }

  ghost predicate Takes(cfg: Config, s: State, e: Event, t: State)
  {
    Enabled(cfg, s, e) && AllReady(s) && t == Next(cfg, s, e)
  }

  /** The states a run passes through: each follows from the one before by some event. */
  ghost predicate IsRun(cfg: Config, states: seq<State>, events: seq<Event>)
  {
    && |states| == |events| + 1
    && states[0] == Initial(cfg)
    && forall i | 0 <= i < |events| :: Takes(cfg, states[i], events[i], states[i + 1])
  }

  ghost predicate Reached(cfg: Config, s: State)
  {
    exists states, events :: IsRun(cfg, states, events) && states[|events|] == s
  }

  lemma InitialInv(cfg: Config)
    ensures Inv(cfg, Initial(cfg))
  {}

  lemma EventTaken(cfg: Config, s: State, e: Event)
    requires Inv(cfg, s) && Enabled(cfg, s, e)
    ensures AllReady(s) && Takes(cfg, s, e, Next(cfg, s, e)) && Inv(cfg, Next(cfg, s, e))
  {
    hide Inv, Next, Enabled, AllReady;
    NextKeepsInv(cfg, s, e);
  }

  lemma RunTakes(cfg: Config, states: seq<State>, events: seq<Event>, i: nat)
    requires IsRun(cfg, states, events) && i < |events|
    ensures |states| == |events| + 1 && Takes(cfg, states[i], events[i], states[i + 1])
  {
    hide Takes, Initial;
  }

  lemma RunStarts(cfg: Config, states: seq<State>, events: seq<Event>)
    requires IsRun(cfg, states, events)
    ensures |states| == |events| + 1 && states[0] == Initial(cfg) && states[0].handlers == map[]
  {
    hide Takes;
  }

  lemma TakesKeepsInv(cfg: Config, s: State, e: Event, t: State)
    requires Inv(cfg, s) && Takes(cfg, s, e, t)
    ensures Inv(cfg, t)
  {
    hide Inv, Next, Enabled, AllReady;
    NextKeepsInv(cfg, s, e);
  }

  lemma {:induction false} RunKeepsInv(cfg: Config, states: seq<State>, events: seq<Event>, i: nat)
    requires IsRun(cfg, states, events) && i < |states|
    ensures Inv(cfg, states[i])
  {
    hide Takes, Inv, Initial;
    if i == 0 {
      InitialInv(cfg);
    } else {
      RunKeepsInv(cfg, states, events, i - 1);
      RunTakes(cfg, states, events, i - 1);
      TakesKeepsInv(cfg, states[i - 1], events[i - 1], states[i]);
    }
  }

  lemma ReachedInv(cfg: Config, s: State)
    requires Reached(cfg, s)
    ensures Inv(cfg, s)
  {
    var states, events :| IsRun(cfg, states, events) && states[|events|] == s;
    RunKeepsInv(cfg, states, events, |events|);
  }

  lemma StartRun(cfg: Config)
    ensures IsRun(cfg, [Initial(cfg)], [])
  {
    hide Initial;
  }

  lemma ExtendRun(cfg: Config, states: seq<State>, events: seq<Event>, e: Event)
    requires IsRun(cfg, states, events) && Enabled(cfg, states[|events|], e)
    ensures |states| == |events| + 1 && AllReady(states[|events|])
    ensures IsRun(cfg, states + [Next(cfg, states[|events|], e)], events + [e])
  {
    RunKeepsInv(cfg, states, events, |events|);
    InvIsReady(cfg, states[|events|]);
    var t := Next(cfg, states[|events|], e);
    assert Takes(cfg, states[|events|], e, t);
    hide *;
    LongerRun(cfg, states, events, e, t);
  }

  lemma LongerRun(cfg: Config, states: seq<State>, events: seq<Event>, e: Event, t: State)
    requires IsRun(cfg, states, events) && Takes(cfg, states[|events|], e, t)
    ensures IsRun(cfg, states + [t], events + [e])
  {
    hide Takes, Initial;
  }

  // ---------------------------------------------------------------- answers

  /**
   * A handler never answers twice and never before it ends, and has answered once it ended unless an error escaped it.
   */
  lemma AnsweredUnlessEscaped(cfg: Config, s: State, h: nat)
    requires Reached(cfg, s) && h in s.handlers
    ensures var x, n := s.handlers[h], AnswersBy(s.clientOutput, h);
            && n <= 1
            && (!x.point.Ended? ==> n == 0)
            && (x.point.Ended? && x.claimed && "id" in x.message && cfg.encodes(TooDeep(x.message["id"])) ==>
                  (n == 1 <==> !x.point.escaped))
            && (x.kind.Calling? && x.point.Ended? ==> !x.point.escaped)
  {
    hide Firewalls.Inv, TablesOk, LogsOk, MintOk, CallOk, AnswersBy, SentBy, ClassifyMessage;
    ReachedInv(cfg, s);
    assert HandlerOk(cfg, s, h);
  }

  /**
   * An answer carries its own request's id, and a payload from the child is the first reply to that request's internal
   * id.
   */
  lemma AnswersAreOwn(cfg: Config, s: State, i: nat)
    requires Reached(cfg, s) && i < |s.clientOutput| && s.clientOutput[i].Answer?
    ensures var e := s.clientOutput[i];
            && e.handler in s.handlers
            && var x := s.handlers[e.handler];
               && x.point.Ended?
               && ("id" in x.message ==> e.body.Obj? && IdOf(e.body) == x.message["id"])
               && (e.source.Some? ==>
                     && x.minted.Some? && "id" in x.message
                     && FirstReply(cfg, s.childOutput, x.mintedAt, x.minted.value, e.source.value)
                     && e.body == Obj(s.childOutput[e.source.value].message["id" := x.message["id"]]))
  {
    hide Reached, Inv, FirstReply;
    ReachedInv(cfg, s);
    ShownHolds(cfg, s, i);
  }

  lemma ShownHolds(cfg: Config, s: State, i: nat)
    requires Inv(cfg, s) && i < |s.clientOutput|
    ensures ShownOk(cfg, s.handlers, s.childOutput, s.clientOutput[i])
  {
    hide Firewalls.Inv, HandlerOk, TablesOk, ShownOk, SentOk;
  }

  lemma {:induction false} SingleAnswer(output: seq<Shown>, h: nat, i: nat, j: nat)
    requires i < j < |output|
    requires output[i].Answer? && output[i].handler == h && output[j].Answer? && output[j].handler == h
    ensures AnswersBy(output, h) >= 2
  {
    var prefix := output[..|output| - 1];
    if j < |prefix| {
      SingleAnswer(prefix, h, i, j);
    } else {
      NoAnswers(prefix, h);
      assert prefix[i] == output[i];
    }
  }

  /**
   * What the client is told when a reply has been taken: the reply under the client's own id, unless it could not be
   * recorded.
   */
  function ReplyShown(cfg: Config, h: nat, x: Handler, reply: Message, at: nat, env: Env): seq<Shown>
    requires "id" in x.message
  {
    if x.kind.Calling? && cfg.fw.auditing && env.terminal != Firewalls.Recorded then
      Written(cfg, h, ErrorResponse(x.message["id"], INTERNAL_ERROR, NOT_RECORDED), None)
    else Written(cfg, h, Obj(reply["id" := x.message["id"]]), Some(at))
  }

  lemma TerminalPhase(cfg: Config, fw: Firewalls.State, h: nat, ok: bool, terminal: Firewalls.AuditOutcome)
    requires h in fw.calls && fw.calls[h].phase.Operating?
    ensures var phase := Firewalls.Audit(cfg.fw, Firewalls.EndOperation(fw, h, ok), h, terminal).calls[h].phase;
            phase.Finished? && (phase.outcome.AuditFailed? <==> cfg.fw.auditing && terminal != Firewalls.Recorded)
  {}

  lemma TakenReplyIsShown(cfg: Config, t: State, h: nat, reply: Message, at: nat, env: Env)
    requires h in t.handlers && "id" in t.handlers[h].message
             && (t.handlers[h].kind.Calling? || t.handlers[h].kind.Requesting?)
    requires t.handlers[h].kind.Calling? ==> h in t.fw.calls && t.fw.calls[h].phase.Operating?
    ensures Fail(cfg, t, h, Replying(reply, at), env).clientOutput
            == t.clientOutput + ReplyShown(cfg, h, t.handlers[h], reply, at, env)
  {
    hide InternalId, ConcludeCall, ReplyShown, Written;
    var u := Release(cfg, t, h);
    if t.handlers[h].kind.Calling? {
      ConcludedReply(cfg, u, h, reply, at, env);
      SameShown(cfg, h, t.handlers[h], u.handlers[h], reply, at, env);
    } else {
      RelayShown(cfg, h, t.handlers[h], reply, at, env);
    }
  }

  lemma SameShown(cfg: Config, h: nat, x: Handler, y: Handler, reply: Message, at: nat, env: Env)
    requires x.message == y.message && x.kind == y.kind && "id" in x.message
    ensures ReplyShown(cfg, h, x, reply, at, env) == ReplyShown(cfg, h, y, reply, at, env)
  {}

  lemma RelayShown(cfg: Config, h: nat, x: Handler, reply: Message, at: nat, env: Env)
    requires "id" in x.message && !x.kind.Calling?
    ensures ReplyShown(cfg, h, x, reply, at, env) == Written(cfg, h, Obj(reply["id" := x.message["id"]]), Some(at))
  {}

  lemma ConcludedReply(cfg: Config, u: State, h: nat, reply: Message, at: nat, env: Env)
    requires h in u.handlers && "id" in u.handlers[h].message && u.handlers[h].kind.Calling?
    requires h in u.fw.calls && u.fw.calls[h].phase.Operating?
    ensures ConcludeCall(cfg, u, h, Replying(reply, at), env).clientOutput
            == u.clientOutput + ReplyShown(cfg, h, u.handlers[h], reply, at, env)
  {
    hide Firewalls.Audit, Firewalls.EndOperation, Written, ErrorResponse, IsToolFailure;
    TerminalPhase(cfg, u.fw, h, !IsToolFailure(reply), env.terminal);
  }

  lemma AwaitingFacts(cfg: Config, s: State, h: nat)
    requires Inv(cfg, s) && At(s, h, AwaitingReply) && !FutureDone(cfg, s, s.handlers[h])
    ensures var x := s.handlers[h];
            && x.minted.Some? && "id" in x.message && (x.kind.Calling? || x.kind.Requesting?)
            && InternalId(cfg, x.minted.value) in s.pending && s.pending[InternalId(cfg, x.minted.value)].Waiting?
  {
    hide Firewalls.Inv, TablesOk, LogsOk, CountsOk, CallOk, ClassifyMessage, InternalId, FutureOk;
    assert HandlerOk(cfg, s, h);
  }

  /** A reply to a request still awaited does reach its client: the handler can take it, and answers with it at once. */
  lemma ReplyReachesClient(cfg: Config, s: State, h: nat, line: Line, env: Env)
    requires Reached(cfg, s) && At(s, h, AwaitingReply) && !FutureDone(cfg, s, s.handlers[h])
    requires s.handlers[h].minted.Some? && IsReplyTo(cfg, line, s.handlers[h].minted.value)
    ensures var t, x := ReadChildLine(cfg, s, line), s.handlers[h];
            && "id" in x.message
            && AllReady(t) && Enabled(cfg, t, ReplyTaken(h, env))
            && Next(cfg, t, ReplyTaken(h, env)).clientOutput
               == s.clientOutput + ReplyShown(cfg, h, x, line.message, |s.childOutput|, env)
  {
    hide Inv, Reached, InternalId, AllReady, ReplyShown, FutureDone, IsReplyTo, ReadChildLine, Enabled, Next;
    ReachedInv(cfg, s);
    AwaitingFacts(cfg, s, h);
    ReadResolves(cfg, s, line, s.handlers[h].minted.value);
    var t := ReadChildLine(cfg, s, line);
    ReadKeepsInv(cfg, s, line);
    InvIsReady(cfg, t);
    TakeAwaited(cfg, t, h, line.message, |s.childOutput|, env);
  }

  lemma ReadResolves(cfg: Config, s: State, line: Line, n: nat)
    requires IsReplyTo(cfg, line, n) && InternalId(cfg, n) in s.pending && s.pending[InternalId(cfg, n)].Waiting?
    ensures line.Object?
    ensures ReadChildLine(cfg, s, line)
            == s.(childOutput := s.childOutput + [line],
                  pending := s.pending[InternalId(cfg, n) := Replied(line.message, |s.childOutput|)])
  {
    hide InternalId;
  }

  lemma TakeAwaited(cfg: Config, t: State, h: nat, reply: Message, at: nat, env: Env)
    requires AllReady(t) && At(t, h, AwaitingReply) && t.handlers[h].minted.Some? && "id" in t.handlers[h].message
    requires t.handlers[h].kind.Calling? || t.handlers[h].kind.Requesting?
    requires InternalId(cfg, t.handlers[h].minted.value) in t.pending
    requires t.pending[InternalId(cfg, t.handlers[h].minted.value)] == Replied(reply, at)
    ensures Enabled(cfg, t, ReplyTaken(h, env))
    ensures Next(cfg, t, ReplyTaken(h, env)).clientOutput
            == t.clientOutput + ReplyShown(cfg, h, t.handlers[h], reply, at, env)
  {
    hide InternalId, Fail, ReplyShown, AllReady, CallReady;
    ReadyCall(t, h);
    TakenReplyIsShown(cfg, t, h, reply, at, env);
  }

  const PING: Message := map["id" := Int(7), "method" := Str("ping")]

  lemma PingIsRequest(cfg: Config)
    ensures ClassifyMessage(cfg, PING) == Request
  {
    assert LowerAll("ping")[0] == 'p';
  }

  lemma PingIsForwarded(cfg: Config, env: Env)
    requires forall v :: cfg.encodes(v)
    ensures var s := HandleClientLine(cfg, Initial(cfg), 0, Object(PING), env);
            && 0 in s.handlers && HoldsClaim(s.handlers[0]) && s.handlers[0].message == PING
            && s.handlers[0].kind.Requesting? && s.handlers[0].point == Writing(false)
                  && s.handlers[0].minted == Some(1)
            && s.pending == map[InternalId(cfg, 1) := Waiting] && s.clientOutput == [] && s.childOutput == []
  {
    hide ClassifyMessage, InternalId, Conclude, Authorize, Refusal, ErrorResponse, BatchErrors;
    PingIsRequest(cfg);
  }

  // ---------------------------------------------------------------- ids

  /** The ids in flight belong to different requests, and an id is in the table only while its request is in flight. */
  lemma IdsInFlight(cfg: Config, s: State, a: nat, b: nat, id: Value)
    requires Reached(cfg, s) && a in s.handlers && b in s.handlers
    ensures a != b && HoldsClaim(s.handlers[a]) && HoldsClaim(s.handlers[b]) ==>
              s.handlers[a].message["id"] != s.handlers[b].message["id"]
    ensures id in s.clientPending <==> ClaimedBySome(s.handlers, id)
    ensures id in s.pending <==> AwaitedBySome(cfg, s.handlers, id)
  {
    hide Reached, Inv, ClaimedBySome, AwaitedBySome;
    ReachedInv(cfg, s);
    if a != b && HoldsClaim(s.handlers[a]) && HoldsClaim(s.handlers[b]) { ClaimsInFlight(cfg, s, a, b); }
    TablesInFlight(cfg, s, id);
    if ClaimedBySome(s.handlers, id) { ClaimIsListed(cfg, s, id); }
    if AwaitedBySome(cfg, s.handlers, id) { FutureIsListed(cfg, s, id); }
  }

  lemma ClaimsInFlight(cfg: Config, s: State, a: nat, b: nat)
    requires Inv(cfg, s) && a in s.handlers && b in s.handlers && a != b
    requires HoldsClaim(s.handlers[a]) && HoldsClaim(s.handlers[b])
    ensures s.handlers[a].message["id"] != s.handlers[b].message["id"]
  {
    hide Firewalls.Inv, HandlerOk, LogsOk, ClaimedBySome, AwaitedBySome, MintsDistinct;
  }

  lemma TablesInFlight(cfg: Config, s: State, id: Value)
    requires Inv(cfg, s)
    ensures id in s.clientPending ==> ClaimedBySome(s.handlers, id)
    ensures id in s.pending ==> AwaitedBySome(cfg, s.handlers, id)
  {
    hide Firewalls.Inv, HandlerOk, LogsOk, ClaimedBySome, AwaitedBySome, ClaimsDistinct, MintsDistinct;
  }

  lemma HandlerHolds(cfg: Config, s: State, h: nat)
    requires Inv(cfg, s) && h in s.handlers
    ensures HandlerOk(cfg, s, h)
  {
    hide Firewalls.Inv, HandlerOk, LogsOk, TablesOk;
  }

  lemma ShapeHolds(cfg: Config, s: State, h: nat)
    requires Inv(cfg, s) && h in s.handlers
    ensures ShapeOk(cfg, s.handlers[h])
  {
    hide Inv, ShapeOk, MintOk, CountsOk, CallOk;
    HandlerHolds(cfg, s, h);
  }

  lemma ClaimIsListed(cfg: Config, s: State, id: Value)
    requires Inv(cfg, s) && ClaimedBySome(s.handlers, id)
    ensures id in s.clientPending
  {
    hide Inv, ShapeOk, MintOk, CountsOk, CallOk;
    var a :| a in s.handlers && HoldsClaim(s.handlers[a]) && s.handlers[a].message["id"] == id;
    HandlerHolds(cfg, s, a);
  }

  lemma FutureIsListed(cfg: Config, s: State, id: Value)
    requires Inv(cfg, s) && AwaitedBySome(cfg, s.handlers, id)
    ensures id in s.pending
  {
    hide Inv, ShapeOk, CountsOk, CallOk, InternalId, FutureOk;
    var a :| a in s.handlers && HoldsFuture(s.handlers[a]) && InternalId(cfg, s.handlers[a].minted.value) == id;
    HandlerHolds(cfg, s, a);
  }

  // ---------------------------------------------------------------- non-bypass

  predicate IsToolsCall(m: Message) { "method" in m && m["method"] == Str(TOOLS_CALL) }

  predicate CallsTool(line: Line) { line.Object? && IsToolsCall(line.message) }

  lemma CallMeansToolsCall(cfg: Config, m: Message)
    ensures ClassifyMessage(cfg, m).ToolCallRequest? ==>
              IsToolsCall(m) && ParseCall(cfg, m) == Call(ClassifyMessage(cfg, m).call)
    ensures ClassifyMessage(cfg, m).Request? || ClassifyMessage(cfg, m).Relay? ==>
              "method" in m ==> m["method"].Str? && !IsCallLike(m["method"].s)
    ensures ClassifyMessage(cfg, m).Request? ==> "method" in m
    ensures ClassifyMessage(cfg, m).Relay? && "method" !in m ==> "result" in m || "error" in m
  {
    hide ParseCall, IsCallLike, ErrorResponse;
  }

  /** How many tools/call messages the child has been sent. */
  function ToolCallsSent(input: seq<Sent>): nat
  {
    if input == [] then 0
    else ToolCallsSent(input[..|input| - 1]) + if CallsTool(input[|input| - 1].line) then 1 else 0
  }

  /** No line that is not a lone, well-formed message is ever written to the child, and no alias of tools/call is. */
  lemma OnlyVettedLines(cfg: Config, s: State, i: nat)
    requires Reached(cfg, s) && i < |s.childInput|
    ensures s.childInput[i].line.Object?
            && var m := s.childInput[i].line.message;
               if "method" in m then m["method"].Str? && (IsCallLike(m["method"].s) ==> IsToolsCall(m))
               else "result" in m || "error" in m
  {
    hide Reached, Inv, ClassifyMessage, InternalId, ShapeOk, ChildLineOf, IsCallLike, HandlerOk;
    ReachedInv(cfg, s);
    var e := s.childInput[i];
    SentHolds(cfg, s, i);
    ShapeHolds(cfg, s, e.handler);
    var x := s.handlers[e.handler];
    SentShape(cfg, x);
    CallMeansToolsCall(cfg, x.message);
  }

  lemma SentHolds(cfg: Config, s: State, i: nat)
    requires Inv(cfg, s) && i < |s.childInput|
    ensures SentOk(cfg, s.handlers, s.childInput[i])
  {
    hide Firewalls.Inv, HandlerOk, TablesOk, ShownOk, SentOk;
  }

  /** What a handler sends the child says what the message it handles says, save for the id. */
  lemma SentShape(cfg: Config, x: Handler)
    requires ShapeOk(cfg, x) && !x.kind.Rejecting?
    ensures var category := ClassifyMessage(cfg, x.message);
            category.ToolCallRequest? || category.Request? || category.Relay?
    ensures ChildLineOf(cfg, x).Object?
            && var m := ChildLineOf(cfg, x).message;
               && IsToolsCall(m) == IsToolsCall(x.message)
               && Field(m, "method") == Field(x.message, "method")
               && ("result" in m <==> "result" in x.message) && ("error" in m <==> "error" in x.message)
  {
    hide ClassifyMessage, InternalId;
  }

  /**
   * A tools/call message written to the child asks for exactly the call the policy evaluated, holds that call's one
   * reservation, and is the only message of its handler.
   */
  lemma WrittenCallsAreReserved(cfg: Config, s: State, i: nat)
    requires Reached(cfg, s) && i < |s.childInput| && CallsTool(s.childInput[i].line)
    ensures var e := s.childInput[i];
            && e.handler in s.fw.calls
            && AsksFor(cfg, e.line.message, s.fw.calls[e.handler].call)
            && s.fw.calls[e.handler].started == 1
            && Firewalls.Reservations(s.fw.reserved, e.handler) == 1
            && SentBy(s.childInput, e.handler) == 1
  {
    hide Reached, Inv, Firewalls.Inv, Firewalls.PhaseOk, Firewalls.Reservations, ParseCall, AsksFor, SentBy;
    ReachedInv(cfg, s);
    var e := s.childInput[i];
    SentIsCalling(cfg, s, i);
    ParsedAsAsked(cfg, e.line.message, s.fw.calls[e.handler].call);
    InvOfFirewall(cfg, s);
    Firewalls.PhaseOkOf(cfg.fw, s.fw, e.handler);
    FirewallRuns.PhaseOkReservations(cfg.fw, s.fw.calls[e.handler], Firewalls.Reservations(s.fw.reserved, e.handler));
  }

  lemma SentIsCalling(cfg: Config, s: State, i: nat)
    requires Inv(cfg, s) && i < |s.childInput| && CallsTool(s.childInput[i].line)
    ensures var e := s.childInput[i];
            && e.handler in s.fw.calls
            && ParseCall(cfg, e.line.message) == Call(s.fw.calls[e.handler].call)
            && s.fw.calls[e.handler].started > 0
            && SentBy(s.childInput, e.handler) == 1
  {
    var e := s.childInput[i];
    hide Firewalls.Inv, TablesOk, MintOk, ShownOk, ShapeOk, CountsOk, CallOk, InternalId, ParseCall, ClassifyMessage;
    assert SentOk(cfg, s.handlers, e);
    assert HandlerOk(cfg, s, e.handler);
    NothingSent(s.childInput, e.handler);
    SameParams(cfg, s.handlers[e.handler]);
    CallingHandler(cfg, s, e.handler);
  }

  lemma SameParams(cfg: Config, x: Handler)
    ensures ParseCall(cfg, ChildMessage(cfg, x)) == ParseCall(cfg, x.message)
    ensures IsToolsCall(ChildMessage(cfg, x)) == IsToolsCall(x.message)
  {}

  lemma CallingHandler(cfg: Config, s: State, h: nat)
    requires h in s.handlers && HandlerOk(cfg, s, h)
    requires !s.handlers[h].kind.Rejecting? && IsToolsCall(s.handlers[h].message)
    requires SentBy(s.childInput, h) > 0
    ensures h in s.fw.calls && s.fw.calls[h].started > 0 && SentBy(s.childInput, h) == 1
    ensures ParseCall(cfg, s.handlers[h].message) == Call(s.fw.calls[h].call)
  {
    hide MintOk, InternalId, ParseCall, ClassifyMessage, AnswersBy, SentBy;
    ToolsCallIsCallLike();
    CallMeansToolsCall(cfg, s.handlers[h].message);
  }

  lemma ToolsCallIsCallLike()
    ensures IsCallLike(TOOLS_CALL)
  {}

  // ---------------------------------------------------------------- what becomes of a tools/call

  /** Nothing but the policy stands between this request and its forwarding. */
  predicate Admitted(cfg: Config, s: State, m: Message, call: ToolCall, env: Env)
    requires "id" in m
  {
    && m["id"] !in s.clientPending && '\n' !in call.name && '\r' !in call.name
    && env.storeOk && (cfg.fw.auditing ==> env.recorded)
  }

  lemma ForwardedWhen(cfg: Config, u: State, h: nat, env: Env)
    requires h in u.handlers && u.handlers[h].kind.Calling? && "id" in u.handlers[h].message
    requires h in u.fw.calls && u.fw.calls[h].phase.Operating?
    ensures var t, m := Forward(cfg, u, h, env), u.handlers[h].message;
            && !At(t, h, AwaitingHuman)
            && (At(t, h, Writing(false)) <==>
                  !u.childFailed && cfg.encodes(Obj(m["id" := InternalId(cfg, u.sequence + 1)])))
            && (At(t, h, Writing(false)) ==>
                  t.handlers[h].message == m && t.handlers[h].minted == Some(u.sequence + 1) && t.fw == u.fw)
  {
    hide InternalId, ConcludeCall;
    if u.childFailed {
      CallEnds(cfg, u, h, Unavailable, env);
    } else {
      CallEnds(cfg, Release(cfg, Mint(cfg, u, h), h), h, OtherError, env);
    }
  }

  lemma CallEnds(cfg: Config, u: State, h: nat, result: Forwarded, env: Env)
    requires h in u.handlers && h in u.fw.calls && u.fw.calls[h].phase.Operating?
    ensures At(ConcludeCall(cfg, u, h, result, env), h, Ended(false))
  {
    hide Firewalls.Audit, Firewalls.EndOperation, Written, ForwardedBody, ErrorResponse, IsToolFailure;
    TerminalPhase(cfg, u.fw, h, result.Delivered? || (result.Replying? && !IsToolFailure(result.reply)), env.terminal);
  }

  lemma SettledWhen(cfg: Config, u: State, h: nat, env: Env)
    requires h in u.handlers && u.handlers[h].kind.Calling? && "id" in u.handlers[h].message
    requires h in u.fw.calls && Firewalls.IsSettled(u.fw.calls[h].phase)
    ensures var t, m, phase := Settle(cfg, u, h, env), u.handlers[h].message, u.fw.calls[h].phase;
            && (At(t, h, AwaitingHuman) <==> phase.AwaitingApprover?)
            && (At(t, h, Writing(false)) <==>
                  phase.Ready? && !u.childFailed && cfg.encodes(Obj(m["id" := InternalId(cfg, u.sequence + 1)])))
            && (At(t, h, Writing(false)) ==>
                  t.handlers[h].message == m && t.handlers[h].minted == Some(u.sequence + 1)
                      && t.fw.usage == u.fw.usage)
            && (phase.Finished? && phase.outcome.CallBlocked? ==>
                  t.clientOutput
                  == u.clientOutput
                     + Written(cfg, h,
                         PolicyResponse(m["id"], CALL_BLOCKED, phase.outcome.decision), None))
  {
    hide InternalId, Forward, Written, PolicyResponse, ErrorResponse;
    if u.fw.calls[h].phase.Ready? {
      ForwardedWhen(cfg, WithFirewall(u, Firewalls.Start(u.fw, h)), h, env);
    }
  }

  /** The firewall's verdict on a new call, and the usage it leaves. */
  lemma VerdictOn(cfg: Config, fw: Firewalls.State, h: nat, call: ToolCall, env: Env)
    ensures var d := Evaluate(cfg.fw.policy, call, fw.usage);
            var r := Firewalls.EvaluateAndAudit(cfg.fw, Firewalls.Create(fw, h, call), h, env.storeOk, env.recorded);
            var phase, recorded := r.calls[h].phase, env.storeOk && (cfg.fw.auditing ==> env.recorded);
            && (phase.Ready? <==> recorded && d.kind == Allow)
            && (phase.Ready? ==> r.usage == fw.usage.Recorded(call))
            && (phase.AwaitingApprover? <==> recorded && d.kind == RequireApproval && cfg.fw.hasApprover)
            && (recorded && d.kind == Block ==> phase == Firewalls.Finished(Firewalls.CallBlocked(d)))
  {
    hide Firewalls.EvaluateAndAudit, Evaluate;
    GuardedCalls.OpeningPhase(cfg.fw, fw, h, call, env.storeOk, env.recorded);
    GuardedCalls.EvaluationSettles(cfg.fw, Firewalls.Create(fw, h, call), h, env.storeOk, env.recorded);
  }

  function Claimed(cfg: Config, s: State, h: nat, m: Message, call: ToolCall, env: Env): State
    requires "id" in m
  {
    WithFirewall(Claim(Spawn(s, h, Object(m), Calling), h),
                 Firewalls.EvaluateAndAudit(cfg.fw, Firewalls.Create(s.fw, h, call), h, env.storeOk, env.recorded))
  }

  lemma FirstStretch(cfg: Config, s: State, h: nat, m: Message, call: ToolCall, env: Env)
    requires ClassifyMessage(cfg, m) == ToolCallRequest(call) && "id" in m
    ensures h in Claimed(cfg, s, h, m, call, env).handlers && Claimed(cfg, s, h, m, call, env).handlers[h].kind.Calling?
    ensures var t := HandleClientLine(cfg, s, h, Object(m), env);
            if m["id"] !in s.clientPending
                && NameIsValid(call.name) then t == Settle(cfg, Claimed(cfg, s, h, m, call, env), h, env)
            else At(t, h, Ended(false))
  {
    hide ClassifyMessage, Settle, Firewalls.EvaluateAndAudit, Written, ErrorResponse;
  }

  /**
   * The first stretch of a tools/call with an id: it goes on to the child exactly when the policy allows it and nothing
   * else prevents it, with its reservation taken and a fresh internal id; it waits for the human exactly when the
   * policy asks for approval and there is someone to ask; and a block is answered with the decision.
   */
  lemma PolicyRulesTheCall(cfg: Config, s: State, h: nat, m: Message, call: ToolCall, env: Env)
    requires ClassifyMessage(cfg, m) == ToolCallRequest(call) && "id" in m
    ensures var t, d := HandleClientLine(cfg, s, h, Object(m), env), Evaluate(cfg.fw.policy, call, s.fw.usage);
            var admitted := Admitted(cfg, s, m, call, env);
            && (At(t, h, AwaitingHuman) <==> admitted && d.kind == RequireApproval && cfg.fw.hasApprover)
            && (At(t, h, Writing(false)) <==>
                  admitted && d.kind == Allow && !s.childFailed
                      && cfg.encodes(Obj(m["id" := InternalId(cfg, s.sequence + 1)])))
            && (At(t, h, Writing(false)) ==>
                  t.handlers[h].message == m && t.handlers[h].minted == Some(s.sequence + 1)
                  && t.fw.usage == s.fw.usage.Recorded(call))
            && (admitted && d.kind == Block ==>
                  t.clientOutput
                  == s.clientOutput
                      + Written(cfg, h, PolicyText(m["id"], "Tool call blocked by Agent Firewall", d), None))
  {
    hide HandleClientLine, ClassifyMessage, Settle, Evaluate, Firewalls.EvaluateAndAudit, Written, PolicyResponse,
        PolicyText, InternalId;
    FirstStretch(cfg, s, h, m, call, env);
    PolicyResponseSays(m["id"], CALL_BLOCKED, Evaluate(cfg.fw.policy, call, s.fw.usage));
    if m["id"] !in s.clientPending && NameIsValid(call.name) {
      VerdictOn(cfg, s.fw, h, call, env);
      SettledWhen(cfg, Claimed(cfg, s, h, m, call, env), h, env);
    }
  }

  function CallHandlers(input: seq<Sent>): set<nat>
  {
    set i | 0 <= i < |input| && CallsTool(input[i].line) :: input[i].handler
  }

  lemma {:induction false} CountedByHandlers(input: seq<Sent>)
    requires forall h :: SentBy(input, h) <= 1
    ensures ToolCallsSent(input) == |CallHandlers(input)|
  {
    if input == [] {
      assert CallHandlers(input) == {};
    } else {
      var prefix, last := input[..|input| - 1], input[|input| - 1];
      assert forall h :: SentBy(prefix, h) <= SentBy(input, h);
      CountedByHandlers(prefix);
      NothingSent(prefix, last.handler);
      assert last.handler !in CallHandlers(prefix);
      assert input == prefix + [last];
      assert CallHandlers(input) == CallHandlers(prefix) + if CallsTool(last.line) then {last.handler} else {};
    }
  }

  /**
   * From zero usage, the tools/call messages ever written never outnumber `tool_calls`, which never passes `max_calls`.
   */
  lemma WrittenCallsAreCapped(cfg: Config, s: State)
    requires cfg.fw.base == NO_USAGE && Reached(cfg, s)
    ensures ToolCallsSent(s.childInput) <= s.fw.usage.toolCalls
    ensures Budgets.WithinCaps(cfg.fw.policy, s.fw.usage)
    ensures cfg.fw.policy.budget.maxCalls.Some? ==> ToolCallsSent(s.childInput) <= cfg.fw.policy.budget.maxCalls.value
  {
    hide Inv, Budgets.WithinCaps, Budgets.Consistent, Firewalls.Reservations, SentBy;
    ReachedInv(cfg, s);
    FirewallRuns.InvKeepsCaps(cfg.fw, s.fw);
    EachSentOnce(cfg, s);
    CountedByHandlers(s.childInput);
    forall h | h in CallHandlers(s.childInput) ensures Firewalls.Reservations(s.fw.reserved, h) == 1 {
      var i :| 0 <= i < |s.childInput| && CallsTool(s.childInput[i].line) && s.childInput[i].handler == h;
      WrittenCallsAreReserved(cfg, s, i);
    }
    FirewallRuns.DistinctReservations(s.fw.reserved, CallHandlers(s.childInput));
    FirewallRuns.CallCap(cfg.fw.policy, s.fw.usage);
  }

  lemma EachSentOnce(cfg: Config, s: State)
    requires Inv(cfg, s)
    ensures forall h :: SentBy(s.childInput, h) <= 1
  {
    hide Firewalls.Inv, MintOk, ShownOk, ShapeOk, CallOk, InternalId, AnswersBy, SentBy;
    forall h ensures SentBy(s.childInput, h) <= 1 {
      NothingSent(s.childInput, h);
      if h in s.handlers {
        assert HandlerOk(cfg, s, h);
      } else {
        assert forall i | 0 <= i < |s.childInput| :: SentOk(cfg, s.handlers, s.childInput[i]);
      }
    }
  }
}
