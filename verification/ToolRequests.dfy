/** What the messages of a client ask for, and what they are answered with, read off their own fields. */
module ToolRequests {
  import opened Json
  import opened Decimals
  import opened Policies
  import opened Text
  import opened ProxyState

  // ---------------------------------------------------------------- tools/call

  predicate NamesTool(m: Message)
  {
    && "params" in m && m["params"].Obj? && "name" in m["params"].fields
    && m["params"].fields["name"].Str? && !IsBlank(m["params"].fields["name"].s)
  }

  predicate NamesCost(m: Message)
    requires NamesTool(m)
  {
    && "_meta" in m["params"].fields && m["params"].fields["_meta"].Obj?
    && "estimated_cost_usd" in m["params"].fields["_meta"].fields
  }

  /**
   * The message asks for exactly this call: its tool by name, with the arguments it gives or none, at the cost it
   * estimates or none.
   */
  predicate AsksFor(cfg: Config, m: Message, call: ToolCall)
  {
    && NamesTool(m)
    && var params := m["params"].fields;
       && params["name"] == Str(call.name)
       && (if "arguments" in params then params["arguments"] == Obj(call.arguments) else call.arguments == map[])
       && (if NamesCost(m) then cfg.money(params["_meta"].fields["estimated_cost_usd"]) == Some(call.cost)
           else call.cost == Decimal(0, 0))
  }

  lemma ParsedAsAsked(cfg: Config, m: Message, call: ToolCall)
    ensures ParseCall(cfg, m) == Call(call) <==> AsksFor(cfg, m, call)
  {
    hide IsBlank;
  }

  predicate ArgumentsAreFine(m: Message)
    requires NamesTool(m)
  {
    "arguments" in m["params"].fields ==> m["params"].fields["arguments"].Obj?
  }

  predicate CostIsFine(cfg: Config, m: Message)
    requires NamesTool(m)
  {
    NamesCost(m) ==> cfg.money(m["params"].fields["_meta"].fields["estimated_cost_usd"]).Some?
  }

  /** What is told of a tools/call that asks for no call: the first thing wrong with it. */
  function Complaint(m: Message): string
  {
    if !NamesTool(m) then "tools/call requires a string tool name"
    else if !ArgumentsAreFine(m) then "tools/call arguments must be an object"
    else "params._meta.estimated_cost_usd must be a non-negative finite number"
  }

  lemma ParsedIffFine(cfg: Config, m: Message)
    ensures ParseCall(cfg, m).Call? <==> NamesTool(m) && ArgumentsAreFine(m) && CostIsFine(cfg, m)
  {
    hide IsBlank;
  }

  lemma RefusedWithComplaint(cfg: Config, m: Message)
    ensures ParseCall(cfg, m).Malformed? ==> ParseCall(cfg, m).text == Complaint(m)
  {
    hide IsBlank;
  }

  /** A tools/call message is refused as malformed exactly when it asks for no call, and told the first thing wrong. */
  lemma RefusedIff(cfg: Config, m: Message)
    ensures var p := ParseCall(cfg, m);
            && (p.Malformed? <==> forall call :: !AsksFor(cfg, m, call))
            && (p.Malformed? <==> !NamesTool(m) || !ArgumentsAreFine(m) || !CostIsFine(cfg, m))
            && (p.Malformed? ==> p.text == Complaint(m))
  {
    hide ParseCall, AsksFor, NamesTool, ArgumentsAreFine, CostIsFine, Complaint;
    ParsedIffFine(cfg, m);
    RefusedWithComplaint(cfg, m);
    var p := ParseCall(cfg, m);
    if p.Call? {
      ParsedAsAsked(cfg, m, p.call);
    } else {
      forall call ensures !AsksFor(cfg, m, call) {
        ParsedAsAsked(cfg, m, call);
      }
    }
  }

  // ---------------------------------------------------------------- what becomes of a message

  predicate HasMethod(m: Message) { "method" in m && m["method"].Str? }

  predicate IsReply(m: Message) { "method" !in m && ("result" in m || "error" in m) }

  /** The answer that refuses a message. */
  function ErrorText(id: Value, code: int, text: string): Value
  {
    Obj(map["jsonrpc" := Str("2.0"), "id" := id,
            "error" := Obj(map["code" := Int(code), "message" := Str(text)])])
  }

  /** Which messages go to the policy, and as what call. */
  lemma CallsAreVetted(cfg: Config, m: Message, call: ToolCall)
    ensures ClassifyMessage(cfg, m) == ToolCallRequest(call) <==>
            HasMethod(m) && m["method"] == Str("tools/call") && AsksFor(cfg, m, call)
  {
    hide ParseCall, AsksFor, IsCallLike, ErrorResponse;
    ParsedAsAsked(cfg, m, call);
  }

  /**
   * Which go to the child unjudged: other methods that are no spelling of tools/call, as requests where they have an
   * id, and replies.
   */
  lemma PassedOnUnjudged(cfg: Config, m: Message)
    ensures ClassifyMessage(cfg, m) == Request <==>
            HasMethod(m) && "id" in m && m["method"].s != "tools/call" && !IsAlias(m["method"].s)
    ensures ClassifyMessage(cfg, m) == Relay <==>
            || IsReply(m)
            || (HasMethod(m) && "id" !in m && m["method"].s != "tools/call" && !IsAlias(m["method"].s))
  {
    hide ParseCall, IsCallLike, IsAlias, ErrorResponse;
    if HasMethod(m) { CallLikeIffAlias(m["method"].s); }
  }

  /** All others are refused: under their id with the code and text of the first thing wrong, silently without one. */
  lemma RefusedWith(cfg: Config, m: Message)
    ensures var c := ClassifyMessage(cfg, m);
            && (c.Silent? || c.Reject? <==>
                  || (!HasMethod(m) && !IsReply(m))
                  || (HasMethod(m) && m["method"].s != "tools/call" && IsAlias(m["method"].s))
                  || (HasMethod(m) && m["method"].s == "tools/call" && forall call :: !AsksFor(cfg, m, call)))
            && (c.Silent? ==> "id" !in m)
            && (c.Reject? ==>
                  && "id" in m
                  && c.body == if !HasMethod(m) then ErrorText(m["id"], -32600, "JSON-RPC method must be a string")
                               else if m["method"].s != "tools/call" then
                                 ErrorText(m["id"], -32601, "unsupported tools/call alias; use exact tools/call")
                               else ErrorText(m["id"], -32602, Complaint(m)))
  {
    hide ParseCall, AsksFor, IsCallLike, IsAlias, ErrorResponse, ErrorText, Complaint;
    RefusedIff(cfg, m);
    if HasMethod(m) { CallLikeIffAlias(m["method"].s); }
    if "id" in m {
      ErrorResponseSays(m["id"], INVALID_REQUEST_ERROR, "JSON-RPC method must be a string");
      ErrorResponseSays(m["id"], METHOD_NOT_FOUND_ERROR, "unsupported tools/call alias; use exact tools/call");
      ErrorResponseSays(m["id"], INVALID_PARAMS_ERROR, Complaint(m));
    }
  }

  lemma ErrorResponseSays(id: Value, code: int, text: string)
    ensures ErrorResponse(id, code, text) == ErrorText(id, code, text)
  {}

  /** A line that is no message is never passed on: it is answered, a blank one excepted, as the parse error it is. */
  lemma LinesRefusedWith(cfg: Config, line: Line)
    requires !line.Object?
    ensures var c := Classify(cfg, line);
            match line
            case Oversized => c == Reject(ErrorText(Null, -32700, "request too large"))
            case Untrusted => c == Reject(ErrorText(Null, -32700, "invalid JSON-RPC message"))
            case Blank => c == Silent
            case Unusable(_) => c == Reject(ErrorText(Null, -32700, "invalid JSON-RPC message"))
            case Batch(items) =>
              if forall i | 0 <= i < |items| :: !BearsId(items[i]) then c == Silent
              else c == RejectBatch(Arr(RefusalsOf(items)))
  {
    hide ErrorResponse, ErrorText;
    ErrorResponseSays(Null, PARSE_ERROR, "request too large");
    ErrorResponseSays(Null, PARSE_ERROR, "invalid JSON-RPC message");
    if line.Batch? { BatchIsRefused(line.items); }
  }

  predicate BearsId(item: Value) { item.Obj? && "id" in item.fields }

  /** One error for each element that has an id, in their order. */
  function RefusalsOf(items: seq<Value>): seq<Value>
  {
    if items == [] then []
    else
      var n := |items| - 1;
      RefusalsOf(items[..n])
      + if BearsId(items[n]) then
          [ErrorText(items[n].fields["id"], -32600, "batch requests are not supported")]
        else []
  }

  lemma {:induction false} BatchIsRefused(items: seq<Value>)
    ensures BatchErrors(items) == RefusalsOf(items)
    ensures BatchErrors(items) == [] <==> forall i | 0 <= i < |items| :: !BearsId(items[i])
  {
    hide BatchErrors, ErrorResponse, ErrorText;
    if items == [] {
      NothingToRefuse();
    } else {
      var n := |items| - 1;
      BatchIsRefused(items[..n]);
      assert items == items[..n] + [items[n]];
      BatchJoins(items[..n], [items[n]]);
      LastRefusal(items[n]);
    }
  }

  lemma NothingToRefuse()
    ensures BatchErrors([]) == []
  {}

  lemma LastRefusal(item: Value)
    ensures BatchErrors([item])
            == if BearsId(item) then [ErrorText(item.fields["id"], -32600, "batch requests are not supported")] else []
  {
    hide ErrorResponse, ErrorText;
    if BearsId(item) {
      ErrorResponseSays(item.fields["id"], INVALID_REQUEST_ERROR, "batch requests are not supported");
    }
    assert BatchErrors([item][1..]) == [];
  }

  lemma {:induction false} BatchJoins(a: seq<Value>, b: seq<Value>)
    ensures BatchErrors(a + b) == BatchErrors(a) + BatchErrors(b)
  {
    hide ErrorResponse;
    if a == [] {
      assert a + b == b;
    } else {
      assert (a + b)[1..] == a[1..] + b;
      BatchJoins(a[1..], b);
    }
  }

  // ---------------------------------------------------------------- refusals of the policy

  function DataOf(d: Decision): Value
  {
    var kind := match d.kind case Allow => "allow" case Block => "block" case RequireApproval => "require_approval";
    var data := map["decision" := Str(kind), "reason" := Str(d.reason), "code" := Str(d.code)];
    Obj(if d.ruleIndex.Some? then data["rule_index" := Int(d.ruleIndex.value)] else data)
  }

  /** A refusal of the policy says its decision in full. */
  function PolicyText(id: Value, text: string, d: Decision): Value
  {
    Obj(map["jsonrpc" := Str("2.0"), "id" := id,
            "error" := Obj(map["code" := Int(-32001), "message" := Str(text), "data" := DataOf(d)])])
  }

  lemma PolicyResponseSays(id: Value, text: string, d: Decision)
    ensures PolicyResponse(id, text, d) == PolicyText(id, text, d)
  {}

  /** The client can read the decision back: two decisions are never told alike. */
  lemma DecisionsAreTold(a: Decision, b: Decision)
    requires DataOf(a) == DataOf(b)
    ensures a == b
  {
    var x, y := DataOf(a).fields, DataOf(b).fields;
    assert x["decision"] == y["decision"] && x["reason"] == y["reason"] && x["code"] == y["code"];
    assert "rule_index" in x <==> a.ruleIndex.Some?;
    assert "rule_index" in y <==> b.ruleIndex.Some?;
    assert |"allow"| == 5 && |"block"| == 5 && |"require_approval"| == 16 && "allow"[0] != "block"[0];
  }
}
