/** The stdio proxy as a protocol: its shared state, its messages, and each stretch of code between two awaits. */
module ProxyState {
  import opened Json
  import opened Decimals
  import opened Policies
  import opened Text
  import Firewalls

  type Message = map<string, Value>

  // What decoding one line gives; decoding itself is outside the model.
  datatype Line =
    | Oversized
    | Untrusted          // parses, but with duplicate keys or nested too deeply
    | Blank
    | Batch(items: seq<Value>)
    | Unusable(text: string)   // malformed, or neither an object nor an array
    | Object(message: Message)

  datatype Kind = Rejecting | Relaying | Requesting | Calling

  // Where a handler is suspended; Starting and Closing are the moments it is running.
  datatype Point =
    | Starting
    | AwaitingHuman
    | Writing(appended: bool)
    | Aborting
    | AwaitingReply
    | Closing
    | Ended(escaped: bool)

  // `minted` is the internal request number; `mintedAt` counts the child lines already read when it was minted.
  // `message` is what `line` decodes to, when it decodes to a message.
  datatype Handler = Handler(
    line: Line,
    message: Message,
    kind: Kind,
    point: Point,
    claimed: bool,
    minted: Option<nat>,
    mintedAt: nat)

  datatype Future = Waiting | Replied(reply: Message, at: nat) | Broken

  datatype Sent = Sent(handler: nat, line: Line)

  // `source` names the child line a response was taken from.
  datatype Shown = Answer(handler: nat, body: Value, source: Option<nat>) | Relayed(at: nat)

  datatype State = State(
    fw: Firewalls.State,
    pending: map<Value, Future>,
    clientPending: set<Value>,
    sequence: nat,
    childFailed: bool,
    handlers: map<nat, Handler>,
    childInput: seq<Sent>,
    childOutput: seq<Line>,
    clientOutput: seq<Shown>)

  datatype Config = Config(
    fw: Firewalls.Config,
    prefix: string,                    // of the internal ids
    encodes: Value -> bool,            // not nested too deeply to encode
    money: Value -> Option<Decimal>)   // a non-negative finite amount within the per-call range

  function Initial(cfg: Config): State
  {
    State(Firewalls.Initial(cfg.fw), map[], {}, 0, false, map[], [], [], [])
  }

  // ---------------------------------------------------------------- messages

  const POLICY_ERROR := -32001
  const REQUEST_TIMEOUT_ERROR := -32002
  const CHILD_UNAVAILABLE_ERROR := -32003
  const INVALID_REQUEST_ERROR := -32600
  const METHOD_NOT_FOUND_ERROR := -32601
  const INVALID_PARAMS_ERROR := -32602
  const INTERNAL_ERROR := -32603
  const PARSE_ERROR := -32700

  function Response(id: Value, error: Value): Value
  {
    Obj(map["jsonrpc" := Str("2.0"), "id" := id, "error" := error])
  }

  function ErrorResponse(id: Value, code: int, text: string): Value
  {
    Response(id, Obj(map["code" := Int(code), "message" := Str(text)]))
  }

  function KindText(kind: DecisionKind): string
  {
    match kind
    case Allow => "allow"
    case Block => "block"
    case RequireApproval => "require_approval"
  }

  function DecisionData(d: Decision): Value
  {
    var data := map["decision" := Str(KindText(d.kind)), "reason" := Str(d.reason), "code" := Str(d.code)];
    Obj(if d.ruleIndex.Some? then data["rule_index" := Int(d.ruleIndex.value)] else data)
  }

  function PolicyResponse(id: Value, text: string, d: Decision): Value
  {
    Response(id, Obj(map["code" := Int(POLICY_ERROR), "message" := Str(text), "data" := DecisionData(d)]))
  }

  function Field(m: Message, key: string): Option<Value> { if key in m then Some(m[key]) else None }

  function InternalId(cfg: Config, n: nat): Value { Str(cfg.prefix + DecimalText(n)) }

  predicate IsInternalId(cfg: Config, id: Value) { id.Str? && StartsWith(id.s, cfg.prefix) }

  lemma InternalIdInjective(cfg: Config, m: nat, n: nat)
    requires InternalId(cfg, m) == InternalId(cfg, n)
    ensures m == n
  {
    assert (cfg.prefix + DecimalText(m))[|cfg.prefix|..] == DecimalText(m);
    assert (cfg.prefix + DecimalText(n))[|cfg.prefix|..] == DecimalText(n);
    DecimalTextInjective(m, n);
  }

  /** A decodable, method-free line from the child that carries an id. */
  predicate IsResponse(line: Line) { line.Object? && "method" !in line.message && "id" in line.message }

  predicate IsReplyTo(cfg: Config, line: Line, n: nat)
  {
    IsResponse(line) && line.message["id"] == InternalId(cfg, n)
  }

  // ---------------------------------------------------------------- classification of client lines

  function AfterPrefix(s: string, prefix: string): Option<string>
  {
    if prefix <= s then Some(s[|prefix|..]) else None
  }

  function DropSlashes(s: string): (r: string)
    ensures |r| <= |s|
  {
    if s != "" && s[0] == '/' then DropSlashes(s[1..]) else s
  }

  /** A spelling of tools/call up to ASCII case, surrounding ASCII whitespace and repeated slashes. */
  predicate IsCallLike(name: string)
  {
    var a := AfterPrefix(DropAsciiSpace(LowerAll(name)), "tools");
    && a.Some?
    && var b := AfterPrefix(DropAsciiSpace(a.value), "/");
       && b.Some?
       && var c := AfterPrefix(DropAsciiSpace(DropSlashes(b.value)), "call");
          c.Some? && DropAsciiSpace(c.value) == ""
  }

  predicate AllAsciiSpace(s: string) { forall i | 0 <= i < |s| :: IsAsciiSpace(s[i]) }

  function Slashes(n: nat): string { seq(n, _ => '/') }

  /**
   * The text of an alias: the two words, lower-cased, with whitespace around each and `n` more slashes behind the first
   * one.
   */
  function Alias(a: string, b: string, n: nat, c: string, d: string): string
  {
    a + ("tools" + (b + ("/" + (Slashes(n) + (c + ("call" + d))))))
  }

  lemma {:induction false} DropSplits(s: string) returns (w: string)
    ensures s == w + DropAsciiSpace(s) && AllAsciiSpace(w)
  {
    w := "";
    if s != "" && IsAsciiSpace(s[0]) {
      var v := DropSplits(s[1..]);
      w := [s[0]] + v;
      assert s == [s[0]] + s[1..];
    }
  }

  lemma {:induction false} DropSkips(w: string, s: string)
    requires AllAsciiSpace(w) && (s == "" || !IsAsciiSpace(s[0]))
    ensures DropAsciiSpace(w + s) == s
  {
    if w == "" {
      assert w + s == s;
    } else {
      assert (w + s)[1..] == w[1..] + s;
      DropSkips(w[1..], s);
    }
  }

  lemma {:induction false} SlashesSplit(s: string) returns (n: nat)
    ensures s == Slashes(n) + DropSlashes(s)
  {
    n := 0;
    if s != "" && s[0] == '/' {
      var m := SlashesSplit(s[1..]);
      n := m + 1;
      assert Slashes(n) == "/" + Slashes(m) && s == [s[0]] + s[1..];
    }
  }

  lemma {:induction false} SlashesSkip(n: nat, s: string)
    requires s == "" || s[0] != '/'
    ensures DropSlashes(Slashes(n) + s) == s
  {
    if n == 0 {
      assert Slashes(n) + s == s;
    } else {
      assert (Slashes(n) + s)[1..] == Slashes(n - 1) + s;
      SlashesSkip(n - 1, s);
    }
  }

  lemma PrefixCut(s: string, prefix: string, rest: string)
    ensures AfterPrefix(prefix + rest, prefix) == Some(rest)
    ensures AfterPrefix(s, prefix).Some? ==> s == prefix + AfterPrefix(s, prefix).value
  {}

  lemma AliasParts(text: string) returns (a: string, b: string, n: nat, c: string, d: string)
    requires IsCallLike(text)
    ensures AllAsciiSpace(a) && AllAsciiSpace(b) && AllAsciiSpace(c) && AllAsciiSpace(d)
    ensures LowerAll(text) == Alias(a, b, n, c, d)
  {
    hide DropAsciiSpace, DropSlashes, LowerAll, AfterPrefix, AllAsciiSpace, Slashes;
    var s := LowerAll(text);
    a := DropSplits(s);
    var tools := AfterPrefix(DropAsciiSpace(s), "tools").value;
    PrefixCut(DropAsciiSpace(s), "tools", tools);
    b := DropSplits(tools);
    var slash := AfterPrefix(DropAsciiSpace(tools), "/").value;
    PrefixCut(DropAsciiSpace(tools), "/", slash);
    n := SlashesSplit(slash);
    c := DropSplits(DropSlashes(slash));
    var call := AfterPrefix(DropAsciiSpace(DropSlashes(slash)), "call").value;
    PrefixCut(DropAsciiSpace(DropSlashes(slash)), "call", call);
    d := DropSplits(call);
    assert d + "" == d;
  }

  lemma AliasIsCallLike(text: string, a: string, b: string, n: nat, c: string, d: string)
    requires AllAsciiSpace(a) && AllAsciiSpace(b) && AllAsciiSpace(c) && AllAsciiSpace(d)
    requires LowerAll(text) == Alias(a, b, n, c, d)
    ensures IsCallLike(text)
  {
    hide DropAsciiSpace, DropSlashes, LowerAll, AfterPrefix, Slashes;
    var fromCall := "call" + d;
    var fromSlash := "/" + (Slashes(n) + (c + fromCall));
    var fromTools := "tools" + (b + fromSlash);
    assert fromTools[0] == 't' && fromSlash[0] == '/' && fromCall[0] == 'c';
    DropSkips(a, fromTools);
    PrefixCut("", "tools", b + fromSlash);
    DropSkips(b, fromSlash);
    PrefixCut("", "/", Slashes(n) + (c + fromCall));
    assert (c + fromCall)[0] != '/' by { assert c != "" ==> IsAsciiSpace(c[0]); }
    SlashesSkip(n, c + fromCall);
    DropSkips(c, fromCall);
    PrefixCut("", "call", d);
    assert d == d + "";
    DropSkips(d, "");
  }

  ghost predicate IsAlias(text: string)
  {
    exists a, b, n, c, d :: LowerAll(text) == Alias(a, b, n, c, d)
                            && AllAsciiSpace(a) && AllAsciiSpace(b) && AllAsciiSpace(c) && AllAsciiSpace(d)
  }

  /** A method counts as a spelling of tools/call exactly when it is one up to ASCII case, whitespace and slashes. */
  lemma CallLikeIffAlias(text: string)
    ensures IsCallLike(text) <==> IsAlias(text)
  {
    hide IsCallLike, Alias, LowerAll, AllAsciiSpace;
    if IsCallLike(text) {
      var a, b, n, c, d := AliasParts(text);
    }
    if IsAlias(text) {
      var a, b, n, c, d :| LowerAll(text) == Alias(a, b, n, c, d)
                           && AllAsciiSpace(a) && AllAsciiSpace(b) && AllAsciiSpace(c) && AllAsciiSpace(d);
      AliasIsCallLike(text, a, b, n, c, d);
    }
  }

  const TOOLS_CALL := "tools/call"

  function EstimatedCost(cfg: Config, meta: Option<Value>): Option<Decimal>
  {
    if meta.None? || !meta.value.Obj? || "estimated_cost_usd" !in meta.value.fields then Some(ZERO)
    else cfg.money(meta.value.fields["estimated_cost_usd"])
  }

  function Arguments(params: Message): Option<Message>
  {
    if "arguments" !in params then Some(map[])
    else if params["arguments"].Obj? then Some(params["arguments"].fields)
    else None
  }

  // What a tools/call message asks for, or the text of the refusal of its shape.
  datatype Parsed = Call(call: ToolCall) | Malformed(text: string)

  function ParseCall(cfg: Config, m: Message): Parsed
  {
    var params := Field(m, "params");
    var name := if params.Some? && params.value.Obj? then Field(params.value.fields, "name") else None;
    if name.None? || !name.value.Str? || IsBlank(name.value.s) then Malformed("tools/call requires a string tool name")
    else
      var arguments := Arguments(params.value.fields);
      if arguments.None? then Malformed("tools/call arguments must be an object")
      else
        var cost := EstimatedCost(cfg, Field(params.value.fields, "_meta"));
        if cost.None? then Malformed("params._meta.estimated_cost_usd must be a non-negative finite number")
        else Call(ToolCall(name.value.s, arguments.value, cost.value))
  }

  datatype Class =
    | Silent
    | Reject(body: Value)
    | RejectBatch(body: Value)
    | Relay
    | Request
    | ToolCallRequest(call: ToolCall)

  function Refusal(m: Message, code: int, text: string): Class
  {
    if "id" in m then Reject(ErrorResponse(m["id"], code, text)) else Silent
  }

  function BatchErrors(items: seq<Value>): seq<Value>
  {
    if items == [] then []
    else
      var head := items[0];
      (if head.Obj? && "id" in head.fields
       then [ErrorResponse(head.fields["id"], INVALID_REQUEST_ERROR, "batch requests are not supported")] else [])
      + BatchErrors(items[1..])
  }

  function ClassifyMessage(cfg: Config, m: Message): Class
  {
    if "method" !in m && ("result" in m || "error" in m) then Relay
    else if "method" !in m || !m["method"].Str? then
      Refusal(m, INVALID_REQUEST_ERROR, "JSON-RPC method must be a string")
    else if m["method"].s != TOOLS_CALL then
      if IsCallLike(m["method"].s) then
        Refusal(m, METHOD_NOT_FOUND_ERROR, "unsupported tools/call alias; use exact tools/call")
      else if "id" in m then Request
      else Relay
    else
      match ParseCall(cfg, m)
      case Malformed(text) => Refusal(m, INVALID_PARAMS_ERROR, text)
      case Call(call) => ToolCallRequest(call)
  }

  function Classify(cfg: Config, line: Line): Class
  {
    match line
    case Oversized => Reject(ErrorResponse(Null, PARSE_ERROR, "request too large"))
    case Untrusted => Reject(ErrorResponse(Null, PARSE_ERROR, "invalid JSON-RPC message"))
    case Blank => Silent
    case Batch(items) => if BatchErrors(items) == [] then Silent else RejectBatch(Arr(BatchErrors(items)))
    case Unusable(_) => Reject(ErrorResponse(Null, PARSE_ERROR, "invalid JSON-RPC message"))
    case Object(m) => ClassifyMessage(cfg, m)
  }

  function KindOf(c: Class): Kind
  {
    match c
    case Silent => Rejecting
    case Reject(_) => Rejecting
    case RejectBatch(_) => Rejecting
    case Relay => Relaying
    case Request => Requesting
    case ToolCallRequest(_) => Calling
  }

  // ---------------------------------------------------------------- single effects

  function Put(s: State, h: nat, x: Handler): State { s.(handlers := s.handlers[h := x]) }

  function MoveTo(s: State, h: nat, point: Point): State
    requires h in s.handlers
  {
    Put(s, h, s.handlers[h].(point := point))
  }

  function MessageOf(line: Line): Message { if line.Object? then line.message else map[] }

  function Fresh(line: Line, kind: Kind): Handler { Handler(line, MessageOf(line), kind, Starting, false, None, 0) }

  function Spawn(s: State, h: nat, line: Line, kind: Kind): State { Put(s, h, Fresh(line, kind)) }

  function Claim(s: State, h: nat): State
    requires h in s.handlers && "id" in s.handlers[h].message
  {
    Put(s, h, s.handlers[h].(claimed := true)).(clientPending := s.clientPending + {s.handlers[h].message["id"]})
  }

  function WithFirewall(s: State, fw: Firewalls.State): State { s.(fw := fw) }

  function Mint(cfg: Config, s: State, h: nat): State
    requires h in s.handlers
  {
    var n := s.sequence + 1;
    Put(s, h, s.handlers[h].(minted := Some(n), mintedAt := |s.childOutput|, point := Writing(false))).(
      sequence := n,
      pending := s.pending[InternalId(cfg, n) := Waiting])
  }

  function ChildMessage(cfg: Config, x: Handler): Message
  {
    if x.minted.Some? then x.message["id" := InternalId(cfg, x.minted.value)] else x.message
  }

  /**
   * What a handler sends the child: its message under the internal id when one was minted, else the line it received.
   */
  function ChildLineOf(cfg: Config, x: Handler): Line
  {
    if x.minted.Some? then Object(ChildMessage(cfg, x)) else x.line
  }

  function Append(cfg: Config, s: State, h: nat): State
    requires h in s.handlers
  {
    MoveTo(s, h, Writing(true)).(childInput := s.childInput + [Sent(h, ChildLineOf(cfg, s.handlers[h]))])
  }

  function Release(cfg: Config, s: State, h: nat): State
    requires h in s.handlers
  {
    var x := s.handlers[h];
    var t := MoveTo(s, h, Closing);
    if x.minted.Some? then t.(pending := s.pending - {InternalId(cfg, x.minted.value)}) else t
  }

  function TooDeep(id: Value): Value { ErrorResponse(id, PARSE_ERROR, "response too deeply nested to encode") }

  function IdOf(body: Value): Value
  {
    if body.Obj? && "id" in body.fields then body.fields["id"] else Null
  }

  /** What one write to the client adds: the message, or a shorter error with its id, or nothing. */
  function Written(cfg: Config, h: nat, body: Value, source: Option<nat>): seq<Shown>
  {
    if cfg.encodes(body) then [Answer(h, body, source)]
    else if cfg.encodes(TooDeep(IdOf(body))) then [Answer(h, TooDeep(IdOf(body)), None)]
    else []
  }

  /** The end of a handler: the claim is given up and the answer, if any, is written. */
  function Finish(s: State, h: nat, escaped: bool, output: seq<Shown>): State
    requires h in s.handlers
  {
    var x := s.handlers[h];
    MoveTo(s, h, Ended(escaped)).(
      clientPending := if x.claimed && "id" in x.message then s.clientPending - {x.message["id"]} else s.clientPending,
      clientOutput := s.clientOutput + output)
  }

  // ---------------------------------------------------------------- stretches between awaits

  // What the outside decides during a stretch: whether the store, the audit log and the clock cooperate.
  datatype Env = Env(storeOk: bool, recorded: bool, denial: Firewalls.AuditOutcome, terminal: Firewalls.AuditOutcome)

  datatype Forwarded = Replying(reply: Message, at: nat) | Delivered | TimedOut | Unavailable | OtherError

  predicate IsToolFailure(reply: Message)
  {
    || "error" in reply
    || ("result" in reply && reply["result"].Obj? && Field(reply["result"].fields, "isError") == Some(Bool(true)))
  }

  const CALL_BLOCKED := "Tool call blocked by Agent Firewall"
  const NO_APPROVER := "tool call requires approval but no approver is configured"
  const NOT_EXECUTED := "internal firewall error; call not executed"
  const NOT_RECORDED := "tool ran or was attempted but its audit record could not be written"

  function ForwardedBody(id: Value, result: Forwarded): Value
  {
    match result
    case Replying(reply, _) => Obj(reply["id" := id])
    case TimedOut => ErrorResponse(id, REQUEST_TIMEOUT_ERROR, "timed out waiting for wrapped MCP server")
    case Unavailable =>
      ErrorResponse(id, CHILD_UNAVAILABLE_ERROR, "wrapped MCP server is unavailable after a stalled write")
    case _ => ErrorResponse(id, INTERNAL_ERROR, NOT_EXECUTED)
  }

  function SourceOf(result: Forwarded): Option<nat> { if result.Replying? then Some(result.at) else None }

  function AnswerTo(cfg: Config, h: nat, x: Handler, body: Value, source: Option<nat>): seq<Shown>
  {
    if "id" in x.message then Written(cfg, h, body, source) else []
  }

  /** The end of the guarded operation of a tools/call: terminal audit, then the answer. */
  function ConcludeCall(cfg: Config, s: State, h: nat, result: Forwarded, env: Env): State
    requires h in s.handlers && h in s.fw.calls && s.fw.calls[h].phase.Operating?
  {
    var ok := result.Delivered? || (result.Replying? && !IsToolFailure(result.reply));
    var fw := Firewalls.Audit(cfg.fw, Firewalls.EndOperation(s.fw, h, ok), h, env.terminal);
    var x := s.handlers[h];
    var t := WithFirewall(s, fw);
    if fw.calls[h].phase.Finished? && fw.calls[h].phase.outcome.AuditFailed? && "id" in x.message then
      Finish(t, h, false, Written(cfg, h, ErrorResponse(x.message["id"], INTERNAL_ERROR, NOT_RECORDED), None))
    else if "id" in x.message then
      Finish(t, h, false, Written(cfg, h, ForwardedBody(x.message["id"], result), SourceOf(result)))
    else Finish(t, h, false, [])
  }

  /** The end of a message passed through unguarded; errors other than a timeout or a dead child escape. */
  function ConcludeRelay(cfg: Config, s: State, h: nat, result: Forwarded): State
    requires h in s.handlers
  {
    var x := s.handlers[h];
    if result.OtherError? then Finish(s, h, true, [])
    else if x.kind.Requesting? && "id" in x.message then
      Finish(s, h, false, Written(cfg, h, ForwardedBody(x.message["id"], result), SourceOf(result)))
    else Finish(s, h, false, [])
  }

  function Conclude(cfg: Config, s: State, h: nat, result: Forwarded, env: Env): State
    requires h in s.handlers
    requires s.handlers[h].kind.Calling? ==> h in s.fw.calls && s.fw.calls[h].phase.Operating?
  {
    if s.handlers[h].kind.Calling? then ConcludeCall(cfg, s, h, result, env) else ConcludeRelay(cfg, s, h, result)
  }

  /** Forwarding up to its first await: refused at once after a failure, else an id is minted and the write begins. */
  function Forward(cfg: Config, s: State, h: nat, env: Env): State
    requires h in s.handlers
    requires s.handlers[h].kind.Calling? ==> h in s.fw.calls && s.fw.calls[h].phase.Operating?
  {
    if s.childFailed then Conclude(cfg, s, h, Unavailable, env)
    else if "id" in s.handlers[h].message && !s.handlers[h].kind.Relaying? then
      var t := Mint(cfg, s, h);
      if cfg.encodes(Obj(ChildMessage(cfg, t.handlers[h]))) then t
      else Conclude(cfg, Release(cfg, t, h), h, OtherError, env)
    else MoveTo(s, h, Writing(false))
  }

  /** What the client is told of a call that will not be executed. */
  function RefusalBody(id: Value, outcome: Firewalls.Outcome): Value
  {
    match outcome
    case CallBlocked(d) => PolicyResponse(id, CALL_BLOCKED, d)
    case NoApprover(d) => PolicyResponse(id, NO_APPROVER, d)
    case _ => ErrorResponse(id, INTERNAL_ERROR, NOT_EXECUTED)
  }

  /** What the handler does once the firewall has spoken: wait for the human, start the operation, or answer. */
  function Settle(cfg: Config, s: State, h: nat, env: Env): State
    requires h in s.handlers && s.handlers[h].kind.Calling? && h in s.fw.calls
    requires Firewalls.IsSettled(s.fw.calls[h].phase)
  {
    var x := s.handlers[h];
    match s.fw.calls[h].phase
    case Ready(_) => Forward(cfg, WithFirewall(s, Firewalls.Start(s.fw, h)), h, env)
    case AwaitingApprover(_) => MoveTo(s, h, AwaitingHuman)
    case Finished(outcome) =>
      var id := if "id" in x.message then x.message["id"] else Null;
      Finish(s, h, false, AnswerTo(cfg, h, x, RefusalBody(id, outcome), None))
  }

  predicate NameIsValid(name: string) { '\n' !in name && '\r' !in name }

  /** Authorization of a claimed tools/call, up to the handler's first await. */
  function Authorize(cfg: Config, s: State, h: nat, call: ToolCall, env: Env): State
    requires h in s.handlers && s.handlers[h].kind.Calling?
  {
    var x := s.handlers[h];
    if !NameIsValid(call.name) then
      var id := if "id" in x.message then x.message["id"] else Null;
      Finish(s, h, false, AnswerTo(cfg, h, x, ErrorResponse(id, INTERNAL_ERROR, NOT_EXECUTED), None))
    else
      Settle(cfg, WithFirewall(s,
          Firewalls.EvaluateAndAudit(cfg.fw, Firewalls.Create(s.fw, h, call), h, env.storeOk, env.recorded)), h, env)
  }

  const DUPLICATE_TEXT := "Duplicate in-flight JSON-RPC id"

  /** A client line, from its arrival to the first await of its handler. */
  function HandleClientLine(cfg: Config, s: State, h: nat, line: Line, env: Env): State
  {
    var category := Classify(cfg, line);
    var t := Spawn(s, h, line, KindOf(category));
    match category
    case Silent => Finish(t, h, false, [])
    case Reject(body) => Finish(t, h, false, Written(cfg, h, body, None))
    case RejectBatch(body) =>
      if cfg.encodes(body) then Finish(t, h, false, [Answer(h, body, None)]) else Finish(t, h, true, [])
    case Relay => Forward(cfg, t, h, env)
    case Request => ClaimThen(cfg, t, h, None, env)
    case ToolCallRequest(call) => ClaimThen(cfg, t, h, Some(call), env)
  }

  function ClaimThen(cfg: Config, s: State, h: nat, call: Option<ToolCall>, env: Env): State
    requires h in s.handlers && (s.handlers[h].kind.Calling? <==> call.Some?)
  {
    var x := s.handlers[h];
    if "id" in x.message && x.message["id"] in s.clientPending then
      Finish(s, h, false, Written(cfg, h, ErrorResponse(x.message["id"], INVALID_REQUEST_ERROR, DUPLICATE_TEXT), None))
    else
      var t := if "id" in x.message then Claim(s, h) else s;
      if call.Some? then Authorize(cfg, t, h, call.value, env) else Forward(cfg, t, h, env)
  }

  datatype HumanReply = Approves | Denies | Raises

  function HumanStep(cfg: Config, fw: Firewalls.State, h: nat, reply: HumanReply, env: Env): (r: Firewalls.State)
    requires h in fw.calls && fw.calls[h].phase.AwaitingApprover?
    ensures h in r.calls && Firewalls.IsSettled(r.calls[h].phase)
  {
    match reply
    case Raises => Firewalls.ApproverRaises(fw, h)
    case Denies => Firewalls.FinishApproval(cfg.fw, fw, h, false, env.storeOk, env.recorded, env.denial)
    case Approves => Firewalls.FinishApproval(cfg.fw, fw, h, true, env.storeOk, env.recorded, env.denial)
  }

  /** The approver's answer to a held call, and what follows it up to the next await. */
  function HearHuman(cfg: Config, s: State, h: nat, reply: HumanReply, env: Env): State
    requires h in s.handlers && s.handlers[h].kind.Calling?
    requires h in s.fw.calls && s.fw.calls[h].phase.AwaitingApprover?
  {
    Settle(cfg, WithFirewall(MoveTo(s, h, Starting), HumanStep(cfg, s.fw, h, reply, env)), h, env)
  }

  /** The write finished; the handler goes on to wait for the reply unless its time is already up. */
  function FinishWrite(cfg: Config, s: State, h: nat, expired: bool, env: Env): State
    requires h in s.handlers
    requires s.handlers[h].kind.Calling? ==> h in s.fw.calls && s.fw.calls[h].phase.Operating?
  {
    if s.handlers[h].minted.None? then Conclude(cfg, Release(cfg, s, h), h, Delivered, env)
    else if expired then Conclude(cfg, Release(cfg, s, h), h, TimedOut, env)
    else MoveTo(s, h, AwaitingReply)
  }

  /** The write stalled: the child is given up for every handler, and is being terminated. */
  function StallWrite(s: State, h: nat): State
    requires h in s.handlers
  {
    MoveTo(s, h, Aborting).(childFailed := true)
  }

  function Fail(cfg: Config, s: State, h: nat, result: Forwarded, env: Env): State
    requires h in s.handlers
    requires s.handlers[h].kind.Calling? ==> h in s.fw.calls && s.fw.calls[h].phase.Operating?
  {
    Conclude(cfg, Release(cfg, s, h), h, result, env)
  }

  /** The handler wakes up because its future is done. */
  function TakeReply(cfg: Config, s: State, h: nat, env: Env): State
    requires h in s.handlers && s.handlers[h].minted.Some?
    requires InternalId(cfg, s.handlers[h].minted.value) in s.pending
    requires !s.pending[InternalId(cfg, s.handlers[h].minted.value)].Waiting?
    requires s.handlers[h].kind.Calling? ==> h in s.fw.calls && s.fw.calls[h].phase.Operating?
  {
    match s.pending[InternalId(cfg, s.handlers[h].minted.value)]
    case Replied(reply, at) => Fail(cfg, s, h, Replying(reply, at), env)
    case Broken => Fail(cfg, s, h, Unavailable, env)
  }

  /** One line from the child: an awaited reply, a reply nobody awaits any more, or a message for the client. */
  function ReadChildLine(cfg: Config, s: State, line: Line): State
  {
    var at := |s.childOutput|;
    var t := s.(childOutput := s.childOutput + [line]);
    if line.Oversized? || line.Untrusted? then t
    else if !IsResponse(line) then t.(clientOutput := s.clientOutput + [Relayed(at)])
    else
      var id := line.message["id"];
      if id in s.pending && s.pending[id].Waiting? then t.(pending := s.pending[id := Replied(line.message, at)])
      else if IsInternalId(cfg, id) then t
      else t.(clientOutput := s.clientOutput + [Relayed(at)])
  }

  /** The end of the child's output: every future still waiting fails. */
  function ChildExits(s: State): State
  {
    s.(pending := map id | id in s.pending :: if s.pending[id].Waiting? then Broken else s.pending[id])
  }
}
