/** The invariant of the proxy protocol, and its preservation by every single effect. */
module ProxyInvariant {
  import opened Json
  import opened Policies
  import opened ProxyState
  import Firewalls

  // ---------------------------------------------------------------- counting and replies

  function AnswersBy(output: seq<Shown>, h: nat): nat
  {
    if output == [] then 0
    else
      var last := output[|output| - 1];
      AnswersBy(output[..|output| - 1], h) + if last.Answer? && last.handler == h then 1 else 0
  }

  function SentBy(input: seq<Sent>, h: nat): nat
  {
    if input == [] then 0
    else SentBy(input[..|input| - 1], h) + if input[|input| - 1].handler == h then 1 else 0
  }

  predicate NoReply(cfg: Config, lines: seq<Line>, from: nat, to: nat, n: nat)
    requires to <= |lines|
  {
    forall i | from <= i < to :: !IsReplyTo(cfg, lines[i], n)
  }

  /** Line `at` is the first reply to internal request `n` since line `from`. */
  predicate FirstReply(cfg: Config, lines: seq<Line>, from: nat, n: nat, at: nat)
  {
    from <= at < |lines| && IsReplyTo(cfg, lines[at], n) && NoReply(cfg, lines, from, at, n)
  }

  // ---------------------------------------------------------------- one handler

  predicate InFlight(p: Point) { p.Writing? || p.Aborting? || p.AwaitingReply? }

  predicate BeforeSending(p: Point) { p.Starting? || p.AwaitingHuman? || p == Writing(false) }

  predicate HoldsClaim(x: Handler) { x.claimed && !x.point.Ended? && "id" in x.message }

  predicate HoldsFuture(x: Handler) { InFlight(x.point) && x.minted.Some? }

  predicate ShapeOk(cfg: Config, x: Handler)
  {
    && (!x.kind.Rejecting? ==> x.line == Object(x.message))
    && (x.kind.Calling? ==> ClassifyMessage(cfg, x.message).ToolCallRequest?)
    && (x.kind.Requesting? ==> ClassifyMessage(cfg, x.message).Request?)
    && (x.kind.Relaying? ==> ClassifyMessage(cfg, x.message).Relay?)
    && (x.claimed ==> "id" in x.message && (x.kind.Requesting? || x.kind.Calling?))
    && (x.minted.Some? ==> x.claimed)
    && (x.point.Starting? || x.point.AwaitingHuman? ==> x.minted.None?)
    && (x.point.AwaitingReply? ==> x.minted.Some?)
    && (x.point.AwaitingHuman? ==> x.kind.Calling? && ("id" in x.message ==> x.claimed))
    && (InFlight(x.point) ==> !x.kind.Rejecting?)
    && (InFlight(x.point) && !x.kind.Relaying? && "id" in x.message ==> x.minted.Some?)
    && (x.point == Ended(true) ==> !x.kind.Calling?)
  }

  predicate FutureOk(cfg: Config, lines: seq<Line>, x: Handler, f: Future)
    requires x.minted.Some?
  {
    match f
    case Waiting => NoReply(cfg, lines, x.mintedAt, |lines|, x.minted.value)
    case Replied(reply, at) => FirstReply(cfg, lines, x.mintedAt, x.minted.value, at) && lines[at] == Object(reply)
    case Broken => true
  }

  predicate MintOk(cfg: Config, sequence: nat, lines: seq<Line>, pending: map<Value, Future>, x: Handler)
  {
    x.minted.Some? ==>
      && x.minted.value <= sequence
      && x.mintedAt <= |lines|
      && (InFlight(x.point) ==>
            var id := InternalId(cfg, x.minted.value);
            id in pending && FutureOk(cfg, lines, x, pending[id]))
  }

  predicate CountsOk(cfg: Config, output: seq<Shown>, input: seq<Sent>, h: nat, x: Handler)
  {
    && AnswersBy(output, h) <= 1
    && (!x.point.Ended? ==> AnswersBy(output, h) == 0)
    && (x.point == Ended(true) ==> AnswersBy(output, h) == 0)
    && (x.point == Ended(false) && x.claimed && "id" in x.message && cfg.encodes(TooDeep(x.message["id"])) ==>
          AnswersBy(output, h) == 1)
    && SentBy(input, h) <= 1
    && (BeforeSending(x.point) ==> SentBy(input, h) == 0)
  }

  predicate CallOk(cfg: Config, fw: Firewalls.State, input: seq<Sent>, h: nat, x: Handler)
  {
    && (h in fw.calls ==> x.kind.Calling? && ClassifyMessage(cfg, x.message) == ToolCallRequest(fw.calls[h].call))
    && (x.kind.Calling? && InFlight(x.point) ==> h in fw.calls && fw.calls[h].phase.Operating?)
    && (x.point.AwaitingHuman? ==> h in fw.calls && fw.calls[h].phase.AwaitingApprover?)
    && (x.point.Ended? && h in fw.calls ==> fw.calls[h].phase.Finished?)
    && (x.kind.Calling? && SentBy(input, h) > 0 ==> h in fw.calls && fw.calls[h].started > 0)
  }

  predicate HandlerOk(cfg: Config, s: State, h: nat)
    requires h in s.handlers
  {
    var x := s.handlers[h];
    && ShapeOk(cfg, x)
    && (HoldsClaim(x) ==> x.message["id"] in s.clientPending)
    && MintOk(cfg, s.sequence, s.childOutput, s.pending, x)
    && CountsOk(cfg, s.clientOutput, s.childInput, h, x)
    && CallOk(cfg, s.fw, s.childInput, h, x)
  }

  // ---------------------------------------------------------------- the tables

  predicate ClaimsDistinct(handlers: map<nat, Handler>)
  {
    forall a, b | a in handlers && b in handlers && a != b && HoldsClaim(handlers[a]) && HoldsClaim(handlers[b]) ::
      handlers[a].message["id"] != handlers[b].message["id"]
  }

  predicate MintsDistinct(handlers: map<nat, Handler>)
  {
    forall a, b | a in handlers && b in handlers && a != b && handlers[a].minted.Some? && handlers[b].minted.Some? ::
      handlers[a].minted.value != handlers[b].minted.value
  }

  predicate ClaimedBySome(handlers: map<nat, Handler>, id: Value)
  {
    exists a | a in handlers :: HoldsClaim(handlers[a]) && handlers[a].message["id"] == id
  }

  predicate AwaitedBySome(cfg: Config, handlers: map<nat, Handler>, id: Value)
  {
    exists a | a in handlers :: HoldsFuture(handlers[a]) && InternalId(cfg, handlers[a].minted.value) == id
  }

  predicate TablesOk(cfg: Config, s: State)
  {
    && ClaimsDistinct(s.handlers)
    && MintsDistinct(s.handlers)
    && (forall id | id in s.clientPending :: ClaimedBySome(s.handlers, id))
    && (forall id | id in s.pending :: AwaitedBySome(cfg, s.handlers, id))
  }

  // ---------------------------------------------------------------- the logs

  /**
   * What reaches the client: a handler's one answer under its own id, or a child line that answers no minted request.
   */
  predicate ShownOk(cfg: Config, handlers: map<nat, Handler>, lines: seq<Line>, e: Shown)
  {
    match e
    case Answer(h, body, source) =>
      && h in handlers
      && var x := handlers[h];
         && x.point.Ended?
         && ("id" in x.message ==> body.Obj? && IdOf(body) == x.message["id"])
         && (source.Some? ==>
               && x.minted.Some? && "id" in x.message
               && FirstReply(cfg, lines, x.mintedAt, x.minted.value, source.value)
               && body == Obj(lines[source.value].message["id" := x.message["id"]]))
    case Relayed(at) =>
      && at < |lines|
      && !lines[at].Oversized? && !lines[at].Untrusted?
      && !(IsResponse(lines[at]) && IsInternalId(cfg, lines[at].message["id"]))
  }

  predicate SentOk(cfg: Config, handlers: map<nat, Handler>, e: Sent)
  {
    && e.handler in handlers
    && !handlers[e.handler].kind.Rejecting?
    && e.line == ChildLineOf(cfg, handlers[e.handler])
  }

  predicate LogsOk(cfg: Config, s: State)
  {
    && (forall i | 0 <= i < |s.clientOutput| :: ShownOk(cfg, s.handlers, s.childOutput, s.clientOutput[i]))
    && (forall i | 0 <= i < |s.childInput| :: SentOk(cfg, s.handlers, s.childInput[i]))
  }

  ghost predicate Inv(cfg: Config, s: State)
  {
    && Firewalls.Inv(cfg.fw, s.fw)
    && (forall h | h in s.fw.calls :: h in s.handlers)
    && (forall h | h in s.handlers :: HandlerOk(cfg, s, h))
    && TablesOk(cfg, s)
    && LogsOk(cfg, s)
  }

  // ---------------------------------------------------------------- counting

  lemma {:induction false} NoAnswers(output: seq<Shown>, h: nat)
    ensures AnswersBy(output, h) == 0 <==> forall i | 0 <= i < |output| :: output[i].Answer? ==> output[i].handler != h
  {
    if output != [] {
      NoAnswers(output[..|output| - 1], h);
    }
  }

  lemma {:induction false} NothingSent(input: seq<Sent>, h: nat)
    ensures SentBy(input, h) == 0 <==> forall i | 0 <= i < |input| :: input[i].handler != h
  {
    if input != [] {
      NothingSent(input[..|input| - 1], h);
    }
  }

  lemma AnswersAppend(output: seq<Shown>, e: Shown, h: nat)
    ensures AnswersBy(output + [e], h) == AnswersBy(output, h) + if e.Answer? && e.handler == h then 1 else 0
  {
    assert (output + [e])[..|output|] == output;
  }

  lemma SentAppend(input: seq<Sent>, e: Sent, h: nat)
    ensures SentBy(input + [e], h) == SentBy(input, h) + if e.handler == h then 1 else 0
  {
    assert (input + [e])[..|input|] == input;
  }

  // ---------------------------------------------------------------- effects on one handler

  /** `t` differs from `s` in handler `h` only, up to what the other handlers can see of the tables and logs. */
  predicate OnlyHandler(cfg: Config, s: State, t: State, h: nat)
  {
    && h in t.handlers
    && t.handlers == s.handlers[h := t.handlers[h]]
    && t.childOutput == s.childOutput
    && s.sequence <= t.sequence
    && (forall a | a in s.fw.calls && a != h :: a in t.fw.calls && t.fw.calls[a] == s.fw.calls[a])
    && (forall a | a in t.fw.calls && a != h :: a in s.fw.calls)
  }

  lemma OtherHandlerOk(cfg: Config, s: State, t: State, h: nat, a: nat)
    requires OnlyHandler(cfg, s, t, h) && a in s.handlers && a != h
    requires HandlerOk(cfg, s, a)
    requires AnswersBy(t.clientOutput, a) == AnswersBy(s.clientOutput, a)
    requires SentBy(t.childInput, a) == SentBy(s.childInput, a)
    requires HoldsClaim(s.handlers[a]) ==> s.handlers[a].message["id"] in t.clientPending
    requires HoldsFuture(s.handlers[a]) ==>
               var id := InternalId(cfg, s.handlers[a].minted.value);
               id in s.pending ==> id in t.pending && t.pending[id] == s.pending[id]
    ensures HandlerOk(cfg, t, a)
  {
    hide ShapeOk, FutureOk, AnswersBy, SentBy, InternalId;
  }

  /** Handlers that still hold the claims and futures of others keep the tables' ids accounted for. */
  lemma StillClaimed(handlers: map<nat, Handler>, later: map<nat, Handler>, id: Value)
    requires ClaimedBySome(handlers, id)
    requires forall a | a in handlers && HoldsClaim(handlers[a]) && handlers[a].message["id"] == id ::
               a in later && HoldsClaim(later[a]) && later[a].message["id"] == id
    ensures ClaimedBySome(later, id)
  {
    var a :| a in handlers && HoldsClaim(handlers[a]) && handlers[a].message["id"] == id;
    assert a in later && HoldsClaim(later[a]) && later[a].message["id"] == id;
  }

  lemma StillAwaited(cfg: Config, handlers: map<nat, Handler>, later: map<nat, Handler>, id: Value)
    requires AwaitedBySome(cfg, handlers, id)
    requires forall a | a in handlers && HoldsFuture(handlers[a]) && InternalId(cfg, handlers[a].minted.value) == id ::
               a in later && HoldsFuture(later[a]) && later[a].minted == handlers[a].minted
    ensures AwaitedBySome(cfg, later, id)
  {
    hide InternalId;
    var a :| a in handlers && HoldsFuture(handlers[a]) && InternalId(cfg, handlers[a].minted.value) == id;
    assert a in later && HoldsFuture(later[a]) && InternalId(cfg, later[a].minted.value) == id;
  }

  lemma QuietTables(cfg: Config, s: State, t: State, h: nat)
    requires TablesOk(cfg, s) && OnlyHandler(cfg, s, t, h)
    requires t.pending == s.pending && t.clientPending == s.clientPending
    requires h !in s.handlers ==> !HoldsClaim(t.handlers[h]) && t.handlers[h].minted.None?
    requires h in s.handlers ==>
               var x, y := s.handlers[h], t.handlers[h];
               && x.message == y.message && x.minted == y.minted
               && HoldsClaim(x) == HoldsClaim(y) && HoldsFuture(x) == HoldsFuture(y)
    ensures TablesOk(cfg, t)
  {
    hide InternalId, ClaimedBySome, AwaitedBySome, ClaimsDistinct, MintsDistinct;
    QuietDistinct(s, t, h);
    forall id | id in t.clientPending ensures ClaimedBySome(t.handlers, id) {
      StillClaimed(s.handlers, t.handlers, id);
    }
    forall id | id in t.pending ensures AwaitedBySome(cfg, t.handlers, id) {
      StillAwaited(cfg, s.handlers, t.handlers, id);
    }
  }

  /** A change of one handler after which it holds no claim or number it did not hold before. */
  lemma QuietDistinct(s: State, t: State, h: nat)
    requires ClaimsDistinct(s.handlers) && MintsDistinct(s.handlers)
    requires h in t.handlers && t.handlers == s.handlers[h := t.handlers[h]]
    requires h !in s.handlers ==> !HoldsClaim(t.handlers[h]) && t.handlers[h].minted.None?
    requires h in s.handlers ==>
               var x, y := s.handlers[h], t.handlers[h];
               && x.message == y.message && x.minted == y.minted
               && (HoldsClaim(y) ==> HoldsClaim(x))
    ensures ClaimsDistinct(t.handlers) && MintsDistinct(t.handlers)
  {
    hide HoldsClaim;
    assert forall a | a in t.handlers && a != h :: a in s.handlers && t.handlers[a] == s.handlers[a];
  }

  lemma QuietLogs(cfg: Config, s: State, t: State, h: nat)
    requires LogsOk(cfg, s) && OnlyHandler(cfg, s, t, h)
    requires t.clientOutput == s.clientOutput && t.childInput == s.childInput
    requires AnswersBy(s.clientOutput, h) == 0
    requires SentBy(s.childInput, h) == 0
             || (h in s.handlers && s.handlers[h].kind == t.handlers[h].kind
                 && s.handlers[h].line == t.handlers[h].line && s.handlers[h].message == t.handlers[h].message
                 && s.handlers[h].minted == t.handlers[h].minted)
    ensures LogsOk(cfg, t)
  {
    NoAnswers(s.clientOutput, h);
    NothingSent(s.childInput, h);
    forall i | 0 <= i < |t.clientOutput| ensures ShownOk(cfg, t.handlers, t.childOutput, t.clientOutput[i]) {
      assert ShownOk(cfg, s.handlers, s.childOutput, s.clientOutput[i]);
    }
    forall i | 0 <= i < |t.childInput| ensures SentOk(cfg, t.handlers, t.childInput[i]) {
      assert SentOk(cfg, s.handlers, s.childInput[i]);
    }
  }

  /** A change of handler `h` that leaves the tables and logs alone. */
  lemma QuietKeepsInv(cfg: Config, s: State, t: State, h: nat)
    requires Inv(cfg, s) && OnlyHandler(cfg, s, t, h)
    requires Firewalls.Inv(cfg.fw, t.fw)
    requires t.pending == s.pending && t.clientPending == s.clientPending
    requires t.clientOutput == s.clientOutput && t.childInput == s.childInput
    requires AnswersBy(s.clientOutput, h) == 0
    requires h !in s.handlers ==>
               !HoldsClaim(t.handlers[h]) && t.handlers[h].minted.None? && SentBy(s.childInput, h) == 0
    requires h in s.handlers ==>
               var x, y := s.handlers[h], t.handlers[h];
               && x.line == y.line && x.message == y.message && x.minted == y.minted && x.kind == y.kind
               && HoldsClaim(x) == HoldsClaim(y) && HoldsFuture(x) == HoldsFuture(y)
    requires HandlerOk(cfg, t, h)
    ensures Inv(cfg, t)
  {
    hide HandlerOk, TablesOk, LogsOk, Firewalls.Inv, AnswersBy, SentBy, InternalId;
    QuietTables(cfg, s, t, h);
    QuietLogs(cfg, s, t, h);
    OthersOk(cfg, s, t, h);
  }

  predicate OthersSeeNoChange(cfg: Config, s: State, t: State, h: nat)
  {
    forall a | a in s.handlers && a != h ::
      && AnswersBy(t.clientOutput, a) == AnswersBy(s.clientOutput, a)
      && SentBy(t.childInput, a) == SentBy(s.childInput, a)
      && (HoldsClaim(s.handlers[a]) && s.handlers[a].message["id"] in s.clientPending ==>
            s.handlers[a].message["id"] in t.clientPending)
      && (HoldsFuture(s.handlers[a]) ==>
            var id := InternalId(cfg, s.handlers[a].minted.value);
            id in s.pending ==> id in t.pending && t.pending[id] == s.pending[id])
  }

  lemma OthersOk(cfg: Config, s: State, t: State, h: nat)
    requires OnlyHandler(cfg, s, t, h)
    requires forall a | a in s.handlers && a != h :: HandlerOk(cfg, s, a)
    requires OthersSeeNoChange(cfg, s, t, h)
    ensures forall a | a in s.handlers && a != h :: HandlerOk(cfg, t, a)
  {
    forall a | a in s.handlers && a != h ensures HandlerOk(cfg, t, a) {
      OtherHandlerOk(cfg, s, t, h, a);
    }
  }

  lemma SpawnKeepsInv(cfg: Config, s: State, h: nat, line: Line, kind: Kind)
    requires Inv(cfg, s) && h !in s.handlers
    requires ShapeOk(cfg, Fresh(line, kind))
    ensures Inv(cfg, Spawn(s, h, line, kind))
  {
    hide Inv, HandlerOk, ShapeOk, Firewalls.Inv, AnswersBy, SentBy;
    UnknownIsSilent(cfg, s, h);
    FreshHandler(cfg, s, h, line, kind);
    QuietKeepsInv(cfg, s, Spawn(s, h, line, kind), h);
  }

  lemma UnknownIsSilent(cfg: Config, s: State, h: nat)
    requires Inv(cfg, s) && h !in s.handlers
    ensures AnswersBy(s.clientOutput, h) == 0 && SentBy(s.childInput, h) == 0 && h !in s.fw.calls
    ensures Firewalls.Inv(cfg.fw, s.fw)
  {
    hide Firewalls.Inv, HandlerOk, TablesOk, AnswersBy, SentBy;
    NoAnswers(s.clientOutput, h);
    NothingSent(s.childInput, h);
    forall i | 0 <= i < |s.clientOutput| && s.clientOutput[i].Answer? ensures s.clientOutput[i].handler != h {
      assert ShownOk(cfg, s.handlers, s.childOutput, s.clientOutput[i]);
    }
    forall i | 0 <= i < |s.childInput| ensures s.childInput[i].handler != h {
      assert SentOk(cfg, s.handlers, s.childInput[i]);
    }
  }

  lemma FreshHandler(cfg: Config, s: State, h: nat, line: Line, kind: Kind)
    requires ShapeOk(cfg, Fresh(line, kind)) && h !in s.fw.calls
    requires AnswersBy(s.clientOutput, h) == 0 && SentBy(s.childInput, h) == 0
    ensures HandlerOk(cfg, Spawn(s, h, line, kind), h)
  {
    hide ShapeOk, AnswersBy, SentBy;
  }

  lemma ClaimKeepsInv(cfg: Config, s: State, h: nat)
    requires Inv(cfg, s) && h in s.handlers
    requires var x := s.handlers[h];
             && x.point.Starting? && !x.claimed && "id" in x.message && (x.kind.Requesting? || x.kind.Calling?)
             && x.message["id"] !in s.clientPending
    ensures Inv(cfg, Claim(s, h))
  {
    hide Firewalls.Inv, HandlerOk, TablesOk, LogsOk, OthersSeeNoChange, HoldsClaim, InternalId, AnswersBy, SentBy;
    ClaimHandler(cfg, s, h);
    ClaimsAreListed(cfg, s);
    ClaimOthers(cfg, s, h);
    QuietLogs(cfg, s, Claim(s, h), h);
    ClaimTables(cfg, s, h);
    Assemble(cfg, s, Claim(s, h), h);
  }

  lemma ClaimOthers(cfg: Config, s: State, h: nat)
    requires h in s.handlers && "id" in s.handlers[h].message
    ensures OthersSeeNoChange(cfg, s, Claim(s, h), h)
  {
    hide AnswersBy, SentBy, InternalId;
  }

  lemma ClaimHandler(cfg: Config, s: State, h: nat)
    requires h in s.handlers && HandlerOk(cfg, s, h)
    requires var x := s.handlers[h];
             x.point.Starting? && "id" in x.message && (x.kind.Requesting? || x.kind.Calling?)
    ensures HandlerOk(cfg, Claim(s, h), h) && AnswersBy(s.clientOutput, h) == 0 && SentBy(s.childInput, h) == 0
  {
    hide ClassifyMessage, AnswersBy, SentBy, InternalId, FutureOk;
  }

  lemma ClaimsAreListed(cfg: Config, s: State)
    requires forall h | h in s.handlers :: HandlerOk(cfg, s, h)
    ensures forall a | a in s.handlers && HoldsClaim(s.handlers[a]) :: s.handlers[a].message["id"] in s.clientPending
  {
    hide ShapeOk, MintOk, CountsOk, CallOk;
  }

  lemma ClaimTables(cfg: Config, s: State, h: nat)
    requires TablesOk(cfg, s) && h in s.handlers
    requires forall a | a in s.handlers && HoldsClaim(s.handlers[a]) :: s.handlers[a].message["id"] in s.clientPending
    requires var x := s.handlers[h];
             x.point.Starting? && "id" in x.message && x.message["id"] !in s.clientPending
    ensures TablesOk(cfg, Claim(s, h))
  {
    hide InternalId, ClaimedBySome, AwaitedBySome, ClaimsDistinct, MintsDistinct;
    var t := Claim(s, h);
    ClaimDistinct(s, h);
    forall id | id in t.clientPending ensures ClaimedBySome(t.handlers, id) {
      if id in s.clientPending {
        StillClaimed(s.handlers, t.handlers, id);
      } else {
        NowClaimed(s, h);
      }
    }
    forall id | id in t.pending ensures AwaitedBySome(cfg, t.handlers, id) {
      StillAwaited(cfg, s.handlers, t.handlers, id);
    }
  }

  lemma NowClaimed(s: State, h: nat)
    requires h in s.handlers && s.handlers[h].point.Starting? && "id" in s.handlers[h].message
    ensures ClaimedBySome(Claim(s, h).handlers, s.handlers[h].message["id"])
  {
    var t := Claim(s, h);
    assert h in t.handlers && HoldsClaim(t.handlers[h]) && t.handlers[h].message["id"] == s.handlers[h].message["id"];
  }

  lemma ClaimDistinct(s: State, h: nat)
    requires ClaimsDistinct(s.handlers) && MintsDistinct(s.handlers) && h in s.handlers
    requires forall a | a in s.handlers && HoldsClaim(s.handlers[a]) :: s.handlers[a].message["id"] in s.clientPending
    requires "id" in s.handlers[h].message && s.handlers[h].message["id"] !in s.clientPending
    ensures ClaimsDistinct(Claim(s, h).handlers) && MintsDistinct(Claim(s, h).handlers)
  {
    hide HoldsClaim;
    var t := Claim(s, h);
    assert forall a | a in t.handlers && a != h :: a in s.handlers && t.handlers[a] == s.handlers[a];
  }

  /** A step of the firewall for the call of a running handler. */
  lemma FirewallKeepsInv(cfg: Config, s: State, h: nat, fw: Firewalls.State)
    requires Inv(cfg, s) && h in s.handlers && Firewalls.Inv(cfg.fw, fw)
    requires var x := s.handlers[h];
             && x.kind.Calling? && (x.point.Starting? || x.point.Closing?)
             && h in fw.calls && ClassifyMessage(cfg, x.message) == ToolCallRequest(fw.calls[h].call)
             && (SentBy(s.childInput, h) > 0 ==> fw.calls[h].started > 0)
    requires fw.calls == s.fw.calls[h := fw.calls[h]]
    ensures Inv(cfg, WithFirewall(s, fw))
  {
    FirewallHandler(cfg, s, h, fw);
    FirewallOnly(cfg, s, h, fw);
    hide *;
    QuietKeepsInv(cfg, s, WithFirewall(s, fw), h);
  }

  lemma FirewallOnly(cfg: Config, s: State, h: nat, fw: Firewalls.State)
    requires h in s.handlers && h in fw.calls && fw.calls == s.fw.calls[h := fw.calls[h]]
    ensures var t := WithFirewall(s, fw);
            && OnlyHandler(cfg, s, t, h) && t.fw == fw && t.handlers == s.handlers
            && t.pending == s.pending && t.clientPending == s.clientPending
            && t.clientOutput == s.clientOutput && t.childInput == s.childInput
  {
    assert s.handlers == s.handlers[h := s.handlers[h]];
  }

  lemma FirewallHandler(cfg: Config, s: State, h: nat, fw: Firewalls.State)
    requires h in s.handlers && HandlerOk(cfg, s, h)
    requires var x := s.handlers[h];
             && x.kind.Calling? && (x.point.Starting? || x.point.Closing?)
             && h in fw.calls && ClassifyMessage(cfg, x.message) == ToolCallRequest(fw.calls[h].call)
             && (SentBy(s.childInput, h) > 0 ==> fw.calls[h].started > 0)
    ensures HandlerOk(cfg, WithFirewall(s, fw), h) && AnswersBy(s.clientOutput, h) == 0
  {
    hide ClassifyMessage, AnswersBy, SentBy, InternalId, FutureOk;
  }

  /** A move between two points that changes neither claims nor futures. */
  lemma MoveKeepsInv(cfg: Config, s: State, h: nat, point: Point)
    requires Inv(cfg, s) && h in s.handlers && !point.Ended?
    requires var x := s.handlers[h];
             && !x.point.Ended?
             && HoldsFuture(x) == HoldsFuture(x.(point := point))
             && ShapeOk(cfg, x.(point := point))
             && CallOk(cfg, s.fw, s.childInput, h, x.(point := point))
             && (BeforeSending(point) ==> BeforeSending(x.point))
    ensures Inv(cfg, MoveTo(s, h, point))
  {
    hide Firewalls.Inv, ShapeOk, CallOk, AnswersBy, SentBy, InternalId;
    assert HandlerOk(cfg, s, h);
    QuietKeepsInv(cfg, s, MoveTo(s, h, point), h);
  }

  lemma StallKeepsInv(cfg: Config, s: State, h: nat)
    requires Inv(cfg, s) && h in s.handlers && s.handlers[h].point.Writing?
    ensures Inv(cfg, StallWrite(s, h))
  {
    hide Firewalls.Inv, HandlerOk, TablesOk, LogsOk, ClassifyMessage, AnswersBy, SentBy, InternalId;
    StallHandler(cfg, s, h);
    QuietKeepsInv(cfg, s, StallWrite(s, h), h);
  }

  lemma StallHandler(cfg: Config, s: State, h: nat)
    requires h in s.handlers && HandlerOk(cfg, s, h) && s.handlers[h].point.Writing?
    ensures HandlerOk(cfg, StallWrite(s, h), h) && AnswersBy(s.clientOutput, h) == 0
  {
    hide ClassifyMessage, AnswersBy, SentBy, InternalId;
  }

  lemma Assemble(cfg: Config, s: State, t: State, h: nat)
    requires Inv(cfg, s) && OnlyHandler(cfg, s, t, h)
    requires Firewalls.Inv(cfg.fw, t.fw) && (h in t.fw.calls ==> h in s.fw.calls || h in s.handlers)
    requires OthersSeeNoChange(cfg, s, t, h)
    requires HandlerOk(cfg, t, h) && TablesOk(cfg, t) && LogsOk(cfg, t)
    ensures Inv(cfg, t)
  {
    hide HandlerOk, TablesOk, LogsOk, Firewalls.Inv, OthersSeeNoChange;
    OthersOk(cfg, s, t, h);
  }

  lemma MintHandler(cfg: Config, s: State, h: nat)
    requires h in s.handlers && HandlerOk(cfg, s, h)
    requires var x := s.handlers[h];
             && x.point.Starting? && x.claimed
             && (x.kind.Calling? ==> h in s.fw.calls && s.fw.calls[h].phase.Operating?)
    ensures HandlerOk(cfg, Mint(cfg, s, h), h)
  {
    hide ClassifyMessage, AnswersBy, SentBy, InternalId;
  }

  lemma MintOthers(cfg: Config, s: State, h: nat)
    requires h in s.handlers
    requires forall a | a in s.handlers :: MintOk(cfg, s.sequence, s.childOutput, s.pending, s.handlers[a])
    ensures OthersSeeNoChange(cfg, s, Mint(cfg, s, h), h)
  {
    hide AnswersBy, SentBy, InternalId;
    FreshNumber(cfg, s);
  }

  lemma MintKeepsInv(cfg: Config, s: State, h: nat)
    requires Inv(cfg, s) && h in s.handlers
    requires var x := s.handlers[h];
             && x.point.Starting? && x.claimed
             && (x.kind.Calling? ==> h in s.fw.calls && s.fw.calls[h].phase.Operating?)
    ensures Inv(cfg, Mint(cfg, s, h))
  {
    hide Firewalls.Inv, ShapeOk, AnswersBy, SentBy, InternalId, FutureOk, CallOk, TablesOk, LogsOk, OthersSeeNoChange;
    assert HandlerOk(cfg, s, h);
    MintHandler(cfg, s, h);
    MintOthers(cfg, s, h);
    StartingIsUnminted(cfg, s, h);
    MintTables(cfg, s, h);
    QuietLogs(cfg, s, Mint(cfg, s, h), h);
    Assemble(cfg, s, Mint(cfg, s, h), h);
  }

  lemma StartingIsUnminted(cfg: Config, s: State, h: nat)
    requires h in s.handlers && HandlerOk(cfg, s, h) && s.handlers[h].point.Starting?
    ensures s.handlers[h].minted.None?
  {}

  lemma FreshNumber(cfg: Config, s: State)
    requires forall a | a in s.handlers :: MintOk(cfg, s.sequence, s.childOutput, s.pending, s.handlers[a])
    ensures forall a | a in s.handlers && s.handlers[a].minted.Some? ::
              InternalId(cfg, s.handlers[a].minted.value) != InternalId(cfg, s.sequence + 1)
  {
    forall a | a in s.handlers && s.handlers[a].minted.Some?
      ensures InternalId(cfg, s.handlers[a].minted.value) != InternalId(cfg, s.sequence + 1)
    {
      if InternalId(cfg, s.handlers[a].minted.value) == InternalId(cfg, s.sequence + 1) {
        InternalIdInjective(cfg, s.handlers[a].minted.value, s.sequence + 1);
      }
    }
  }

  lemma MintTables(cfg: Config, s: State, h: nat)
    requires TablesOk(cfg, s) && h in s.handlers
    requires forall a | a in s.handlers && s.handlers[a].minted.Some? :: s.handlers[a].minted.value <= s.sequence
    requires s.handlers[h].point.Starting? && s.handlers[h].minted.None?
    ensures TablesOk(cfg, Mint(cfg, s, h))
  {
    hide InternalId, ClaimedBySome, AwaitedBySome, ClaimsDistinct, MintsDistinct;
    var t := Mint(cfg, s, h);
    MintDistinct(cfg, s, h);
    forall id | id in t.clientPending ensures ClaimedBySome(t.handlers, id) {
      StillClaimed(s.handlers, t.handlers, id);
    }
    forall id | id in t.pending ensures AwaitedBySome(cfg, t.handlers, id) {
      if id in s.pending {
        StillAwaited(cfg, s.handlers, t.handlers, id);
      } else {
        NowAwaited(cfg, s, h);
      }
    }
  }

  lemma NowAwaited(cfg: Config, s: State, h: nat)
    requires h in s.handlers
    ensures AwaitedBySome(cfg, Mint(cfg, s, h).handlers, InternalId(cfg, s.sequence + 1))
  {
    hide InternalId;
    var t := Mint(cfg, s, h);
    assert h in t.handlers && HoldsFuture(t.handlers[h])
        && InternalId(cfg, t.handlers[h].minted.value) == InternalId(cfg, s.sequence + 1);
  }

  lemma MintDistinct(cfg: Config, s: State, h: nat)
    requires ClaimsDistinct(s.handlers) && MintsDistinct(s.handlers) && h in s.handlers
    requires forall a | a in s.handlers && s.handlers[a].minted.Some? :: s.handlers[a].minted.value <= s.sequence
    requires s.handlers[h].point.Starting?
    ensures ClaimsDistinct(Mint(cfg, s, h).handlers) && MintsDistinct(Mint(cfg, s, h).handlers)
  {
    hide InternalId;
    var t := Mint(cfg, s, h);
    assert forall a | a in t.handlers && a != h :: a in s.handlers && t.handlers[a] == s.handlers[a];
  }

  lemma AppendCounts(cfg: Config, s: State, h: nat)
    requires h in s.handlers
    ensures forall a :: SentBy(Append(cfg, s, h).childInput, a) == SentBy(s.childInput, a) + if a == h then 1 else 0
  {
    hide SentBy;
    var e := Sent(h, ChildLineOf(cfg, s.handlers[h]));
    forall a ensures SentBy(s.childInput + [e], a) == SentBy(s.childInput, a) + if a == h then 1 else 0 {
      SentAppend(s.childInput, e, a);
    }
  }

  lemma AppendHandler(cfg: Config, s: State, h: nat)
    requires h in s.handlers && HandlerOk(cfg, s, h) && s.handlers[h].point == Writing(false)
    requires s.handlers[h].kind.Calling? ==> h in s.fw.calls && s.fw.calls[h].started > 0
    ensures HandlerOk(cfg, Append(cfg, s, h), h)
  {
    hide ClassifyMessage, AnswersBy, SentBy, InternalId;
    AppendCounts(cfg, s, h);
  }

  lemma AppendLogs(cfg: Config, s: State, h: nat)
    requires h in s.handlers && LogsOk(cfg, s) && s.handlers[h].point == Writing(false)
             && !s.handlers[h].kind.Rejecting?
    requires AnswersBy(s.clientOutput, h) == 0 && SentBy(s.childInput, h) == 0
    ensures LogsOk(cfg, Append(cfg, s, h))
  {
    hide ShownOk, InternalId;
    var m := MoveTo(s, h, Writing(true));
    QuietLogs(cfg, s, m, h);
    assert SentOk(cfg, m.handlers, Sent(h, ChildLineOf(cfg, s.handlers[h])));
  }

  lemma AppendKeepsInv(cfg: Config, s: State, h: nat)
    requires Inv(cfg, s) && h in s.handlers && s.handlers[h].point == Writing(false)
    ensures Inv(cfg, Append(cfg, s, h))
  {
    hide Inv, Firewalls.Inv, HandlerOk, AnswersBy, SentBy, InternalId, TablesOk, LogsOk, OthersSeeNoChange;
    BeforeAppend(cfg, s, h);
    AppendHandler(cfg, s, h);
    AppendOthers(cfg, s, h);
    QuietTables(cfg, s, Append(cfg, s, h), h);
    AppendLogs(cfg, s, h);
    Assemble(cfg, s, Append(cfg, s, h), h);
  }

  lemma BeforeAppend(cfg: Config, s: State, h: nat)
    requires Inv(cfg, s) && h in s.handlers && s.handlers[h].point == Writing(false)
    ensures Firewalls.Inv(cfg.fw, s.fw) && HandlerOk(cfg, s, h) && TablesOk(cfg, s) && LogsOk(cfg, s)
    ensures AnswersBy(s.clientOutput, h) == 0 && SentBy(s.childInput, h) == 0 && !s.handlers[h].kind.Rejecting?
    ensures s.handlers[h].kind.Calling? ==> h in s.fw.calls && s.fw.calls[h].started > 0
  {
    hide Firewalls.Inv, ClassifyMessage, MintOk, AnswersBy, SentBy, InternalId, TablesOk, LogsOk;
    assert HandlerOk(cfg, s, h);
    if s.handlers[h].kind.Calling? { CallStarted(cfg, s, h); }
  }

  lemma AppendOthers(cfg: Config, s: State, h: nat)
    requires h in s.handlers
    ensures OthersSeeNoChange(cfg, s, Append(cfg, s, h), h)
  {
    hide AnswersBy, SentBy, InternalId;
    AppendCounts(cfg, s, h);
  }

  lemma CallStarted(cfg: Config, s: State, h: nat)
    requires Inv(cfg, s) && h in s.fw.calls && s.fw.calls[h].phase.Operating?
    ensures s.fw.calls[h].started > 0
  {
    hide HandlerOk, TablesOk, LogsOk, RuleDecision, Firewalls.CallsOf, Firewalls.Reservations;
  }

  lemma ReleaseHandler(cfg: Config, s: State, h: nat)
    requires h in s.handlers && HandlerOk(cfg, s, h) && InFlight(s.handlers[h].point)
    ensures HandlerOk(cfg, Release(cfg, s, h), h)
  {
    hide ClassifyMessage, AnswersBy, SentBy, InternalId;
  }

  lemma ReleaseOthers(cfg: Config, s: State, h: nat)
    requires h in s.handlers && MintsDistinct(s.handlers)
    ensures OthersSeeNoChange(cfg, s, Release(cfg, s, h), h)
  {
    hide AnswersBy, SentBy, InternalId;
    OtherIds(cfg, s, h);
  }

  lemma ReleaseKeepsInv(cfg: Config, s: State, h: nat)
    requires Inv(cfg, s) && h in s.handlers && InFlight(s.handlers[h].point)
    ensures Inv(cfg, Release(cfg, s, h))
  {
    hide Firewalls.Inv, ShapeOk, MintOk, AnswersBy, SentBy, InternalId, CallOk, LogsOk, OthersSeeNoChange,
        ClaimedBySome, AwaitedBySome;
    assert HandlerOk(cfg, s, h);
    ReleaseHandler(cfg, s, h);
    ReleaseOthers(cfg, s, h);
    ReleaseTables(cfg, s, h);
    QuietLogs(cfg, s, Release(cfg, s, h), h);
    Assemble(cfg, s, Release(cfg, s, h), h);
  }

  lemma OtherIds(cfg: Config, s: State, h: nat)
    requires MintsDistinct(s.handlers) && h in s.handlers
    ensures s.handlers[h].minted.Some? ==>
              forall a | a in s.handlers && a != h && s.handlers[a].minted.Some? ::
                InternalId(cfg, s.handlers[a].minted.value) != InternalId(cfg, s.handlers[h].minted.value)
  {
    if s.handlers[h].minted.Some? {
      forall a | a in s.handlers && a != h && s.handlers[a].minted.Some?
        ensures InternalId(cfg, s.handlers[a].minted.value) != InternalId(cfg, s.handlers[h].minted.value)
      {
        if InternalId(cfg, s.handlers[a].minted.value) == InternalId(cfg, s.handlers[h].minted.value) {
          InternalIdInjective(cfg, s.handlers[a].minted.value, s.handlers[h].minted.value);
        }
      }
    }
  }

  lemma ReleaseTables(cfg: Config, s: State, h: nat)
    requires TablesOk(cfg, s) && h in s.handlers && InFlight(s.handlers[h].point)
    ensures TablesOk(cfg, Release(cfg, s, h))
  {
    hide InternalId, ClaimedBySome, AwaitedBySome, ClaimsDistinct, MintsDistinct;
    var t := Release(cfg, s, h);
    QuietDistinct(s, t, h);
    forall id | id in t.clientPending ensures ClaimedBySome(t.handlers, id) {
      StillClaimed(s.handlers, t.handlers, id);
    }
    forall id | id in t.pending ensures AwaitedBySome(cfg, t.handlers, id) {
      StillAwaited(cfg, s.handlers, t.handlers, id);
    }
  }

  /** What may be written to the client as handler `h` ends. */
  predicate OutputOk(cfg: Config, s: State, h: nat, escaped: bool, output: seq<Shown>)
    requires h in s.handlers
  {
    var x := s.handlers[h].(point := Ended(escaped));
    && |output| <= 1
    && (escaped ==> output == [])
    && (output != [] ==> output[0].Answer? && output[0].handler == h
                         && ShownOk(cfg, map[h := x], s.childOutput, output[0]))
    && (!escaped && x.claimed && "id" in x.message && cfg.encodes(TooDeep(x.message["id"])) ==> output != [])
  }

  lemma FinishKeepsInv(cfg: Config, s: State, h: nat, escaped: bool, output: seq<Shown>)
    requires Inv(cfg, s) && h in s.handlers
    requires s.handlers[h].point.Starting? || s.handlers[h].point.Closing?
    requires OutputOk(cfg, s, h, escaped, output)
    requires escaped ==> !s.handlers[h].kind.Calling?
    requires h in s.fw.calls ==> s.fw.calls[h].phase.Finished?
    ensures Inv(cfg, Finish(s, h, escaped, output))
  {
    hide Firewalls.Inv, HandlerOk, LogsOk, OutputOk, OthersSeeNoChange, ClaimsDistinct, MintsDistinct, ClaimedBySome,
         AwaitedBySome, InternalId, AnswersBy, SentBy;
    FinishHandler(cfg, s, h, escaped, output);
    FinishOthers(cfg, s, h, escaped, output);
    FinishTables(cfg, s, h, escaped, output);
    FinishLogs(cfg, s, h, escaped, output);
    Assemble(cfg, s, Finish(s, h, escaped, output), h);
  }

  lemma FinishHandler(cfg: Config, s: State, h: nat, escaped: bool, output: seq<Shown>)
    requires h in s.handlers && HandlerOk(cfg, s, h)
    requires s.handlers[h].point.Starting? || s.handlers[h].point.Closing?
    requires OutputOk(cfg, s, h, escaped, output)
    requires escaped ==> !s.handlers[h].kind.Calling?
    requires h in s.fw.calls ==> s.fw.calls[h].phase.Finished?
    ensures HandlerOk(cfg, Finish(s, h, escaped, output), h)
    ensures AnswersBy(s.clientOutput, h) == 0
  {
    FinishCountsOk(cfg, s, h, escaped, output);
    var t := Finish(s, h, escaped, output);
    EndedShape(cfg, s.handlers[h], escaped);
    EndedCall(cfg, s.fw, s.childInput, h, s.handlers[h], escaped);
    EndedMint(cfg, s, h, escaped, t.pending);
    assert AnswersBy(s.clientOutput, h) == 0 by { hide ShapeOk, MintOk, CallOk, AnswersBy, SentBy; }
    hide ShapeOk, MintOk, CallOk, CountsOk, OutputOk, AnswersBy;
  }

  lemma EndedShape(cfg: Config, x: Handler, escaped: bool)
    requires ShapeOk(cfg, x) && (x.point.Starting? || x.point.Closing?) && (escaped ==> !x.kind.Calling?)
    ensures ShapeOk(cfg, x.(point := Ended(escaped)))
  {
    hide ClassifyMessage;
  }

  lemma EndedCall(cfg: Config, fw: Firewalls.State, input: seq<Sent>, h: nat, x: Handler, escaped: bool)
    requires CallOk(cfg, fw, input, h, x) && (h in fw.calls ==> fw.calls[h].phase.Finished?)
    ensures CallOk(cfg, fw, input, h, x.(point := Ended(escaped)))
  {
    hide ClassifyMessage, SentBy;
  }

  lemma EndedMint(cfg: Config, s: State, h: nat, escaped: bool, pending: map<Value, Future>)
    requires h in s.handlers && MintOk(cfg, s.sequence, s.childOutput, s.pending, s.handlers[h])
    ensures MintOk(cfg, s.sequence, s.childOutput, pending, s.handlers[h].(point := Ended(escaped)))
  {
    hide InternalId, FutureOk;
  }

  lemma FinishCountsOk(cfg: Config, s: State, h: nat, escaped: bool, output: seq<Shown>)
    requires h in s.handlers && CountsOk(cfg, s.clientOutput, s.childInput, h, s.handlers[h])
    requires s.handlers[h].point.Starting? || s.handlers[h].point.Closing?
    requires OutputOk(cfg, s, h, escaped, output)
    ensures var t := Finish(s, h, escaped, output);
            h in t.handlers && CountsOk(cfg, t.clientOutput, t.childInput, h, t.handlers[h])
  {
    hide AnswersBy, SentBy, ShownOk;
    FinishCounts(s, h, escaped, output);
  }

  lemma FinishOthers(cfg: Config, s: State, h: nat, escaped: bool, output: seq<Shown>)
    requires ClaimsDistinct(s.handlers) && h in s.handlers && !s.handlers[h].point.Ended?
    requires OutputOk(cfg, s, h, escaped, output)
    ensures OthersSeeNoChange(cfg, s, Finish(s, h, escaped, output), h)
  {
    hide AnswersBy, SentBy, InternalId, ShownOk;
    FinishCounts(s, h, escaped, output);
    FinishClaims(s, h, escaped, output);
  }

  lemma FinishCounts(s: State, h: nat, escaped: bool, output: seq<Shown>)
    requires h in s.handlers && |output| <= 1
    requires output != [] ==> output[0].Answer? && output[0].handler == h
    ensures forall a ::
              AnswersBy(Finish(s, h, escaped, output).clientOutput, a)
              == AnswersBy(s.clientOutput, a) + if output != [] && a == h then 1 else 0
  {
    hide AnswersBy;
    var t := Finish(s, h, escaped, output);
    forall a ensures AnswersBy(t.clientOutput, a) == AnswersBy(s.clientOutput, a) + if output != [] && a == h then 1
        else 0 {
      if output == [] {
        assert t.clientOutput == s.clientOutput;
      } else {
        assert t.clientOutput == s.clientOutput + [output[0]];
        AnswersAppend(s.clientOutput, output[0], a);
      }
    }
  }

  lemma FinishClaims(s: State, h: nat, escaped: bool, output: seq<Shown>)
    requires ClaimsDistinct(s.handlers) && h in s.handlers && !s.handlers[h].point.Ended?
    ensures forall a | a in s.handlers && a != h && HoldsClaim(s.handlers[a])
            && s.handlers[a].message["id"] in s.clientPending ::
              s.handlers[a].message["id"] in Finish(s, h, escaped, output).clientPending
  {}

  lemma FinishTables(cfg: Config, s: State, h: nat, escaped: bool, output: seq<Shown>)
    requires TablesOk(cfg, s) && h in s.handlers
    requires s.handlers[h].point.Starting? || s.handlers[h].point.Closing?
    ensures TablesOk(cfg, Finish(s, h, escaped, output))
  {
    hide InternalId, ClaimedBySome, AwaitedBySome, ClaimsDistinct, MintsDistinct;
    var t := Finish(s, h, escaped, output);
    QuietDistinct(s, t, h);
    forall id | id in t.clientPending ensures ClaimedBySome(t.handlers, id) {
      StillClaimed(s.handlers, t.handlers, id);
    }
    forall id | id in t.pending ensures AwaitedBySome(cfg, t.handlers, id) {
      StillAwaited(cfg, s.handlers, t.handlers, id);
    }
  }

  lemma FinishLogs(cfg: Config, s: State, h: nat, escaped: bool, output: seq<Shown>)
    requires LogsOk(cfg, s) && h in s.handlers
    requires AnswersBy(s.clientOutput, h) == 0
    requires OutputOk(cfg, s, h, escaped, output)
    ensures LogsOk(cfg, Finish(s, h, escaped, output))
  {
    hide FirstReply, InternalId, ShownOk, SentOk, AnswersBy;
    var t := Finish(s, h, escaped, output);
    NoAnswers(s.clientOutput, h);
    forall i | 0 <= i < |t.clientOutput| ensures ShownOk(cfg, t.handlers, t.childOutput, t.clientOutput[i]) {
      if i < |s.clientOutput| {
        ShownAfter(cfg, s, h, escaped, output, s.clientOutput[i]);
      } else {
        assert t.clientOutput[i] == output[0];
        OwnShown(cfg, map[h := t.handlers[h]], t.handlers, t.childOutput, output[0]);
      }
    }
    forall i | 0 <= i < |t.childInput| ensures SentOk(cfg, t.handlers, t.childInput[i]) {
      SentAfter(cfg, s, h, escaped, output, s.childInput[i]);
    }
  }

  lemma ShownAfter(cfg: Config, s: State, h: nat, escaped: bool, output: seq<Shown>, e: Shown)
    requires h in s.handlers && ShownOk(cfg, s.handlers, s.childOutput, e) && (e.Answer? ==> e.handler != h)
    ensures ShownOk(cfg, Finish(s, h, escaped, output).handlers, s.childOutput, e)
  {
    hide FirstReply, InternalId;
  }

  lemma OwnShown(cfg: Config, own: map<nat, Handler>, handlers: map<nat, Handler>, lines: seq<Line>, e: Shown)
    requires ShownOk(cfg, own, lines, e) && forall a | a in own :: a in handlers && handlers[a] == own[a]
    ensures ShownOk(cfg, handlers, lines, e)
  {
    hide FirstReply, InternalId;
  }

  lemma SentAfter(cfg: Config, s: State, h: nat, escaped: bool, output: seq<Shown>, e: Sent)
    requires h in s.handlers && SentOk(cfg, s.handlers, e)
    ensures SentOk(cfg, Finish(s, h, escaped, output).handlers, e)
  {
    hide InternalId;
  }

  // ---------------------------------------------------------------- the child's output

  lemma LaterLine(cfg: Config, lines: seq<Line>, line: Line, from: nat, n: nat)
    ensures forall at :: FirstReply(cfg, lines, from, n, at) ==> FirstReply(cfg, lines + [line], from, n, at)
    ensures from <= |lines| && NoReply(cfg, lines, from, |lines|, n) ==>
              if IsReplyTo(cfg, line, n) then FirstReply(cfg, lines + [line], from, n, |lines|)
              else NoReply(cfg, lines + [line], from, |lines| + 1, n)
  {
    hide IsReplyTo;
  }

  lemma ReadHandler(cfg: Config, s: State, line: Line, h: nat)
    requires h in s.handlers && HandlerOk(cfg, s, h)
    ensures HandlerOk(cfg, ReadChildLine(cfg, s, line), h)
  {
    hide ShapeOk, CallOk, AnswersBy, SentBy, InternalId, FirstReply, NoReply;
    var t := ReadChildLine(cfg, s, line);
    var x := s.handlers[h];
    ReadCounts(cfg, s, line, h);
    assert MintOk(cfg, t.sequence, t.childOutput, t.pending, x) by {
      if x.minted.Some? {
        LaterLine(cfg, s.childOutput, line, x.mintedAt, x.minted.value);
        if InFlight(x.point) {
          assert IsReplyTo(cfg, line, x.minted.value) <==>
                 IsResponse(line) && line.message["id"] == InternalId(cfg, x.minted.value);
          assert IsResponse(line) ==> line.Object?;
          var f := s.pending[InternalId(cfg, x.minted.value)];
          if f.Replied? { FirstReplyInRange(cfg, s.childOutput, x.mintedAt, x.minted.value, f.at); }
        }
      }
    }
  }

  lemma ReadCounts(cfg: Config, s: State, line: Line, h: nat)
    ensures AnswersBy(ReadChildLine(cfg, s, line).clientOutput, h) == AnswersBy(s.clientOutput, h)
  {
    AnswersAppend(s.clientOutput, Relayed(|s.childOutput|), h);
  }

  lemma ReadLogs(cfg: Config, s: State, line: Line)
    requires LogsOk(cfg, s)
    requires forall id | id in s.pending :: IsInternalId(cfg, id)
    ensures LogsOk(cfg, ReadChildLine(cfg, s, line))
  {
    hide FirstReply;
    var t := ReadChildLine(cfg, s, line);
    forall i | 0 <= i < |t.clientOutput| ensures ShownOk(cfg, t.handlers, t.childOutput, t.clientOutput[i]) {
      if i < |s.clientOutput| {
        var e := s.clientOutput[i];
        assert ShownOk(cfg, s.handlers, s.childOutput, e);
        if e.Answer? && e.source.Some? {
          var x := s.handlers[e.handler];
          LaterLine(cfg, s.childOutput, line, x.mintedAt, x.minted.value);
          FirstReplyInRange(cfg, s.childOutput, x.mintedAt, x.minted.value, e.source.value);
        }
      }
    }
    forall i | 0 <= i < |t.childInput| ensures SentOk(cfg, t.handlers, t.childInput[i]) {
      assert SentOk(cfg, s.handlers, s.childInput[i]);
    }
  }

  lemma FirstReplyInRange(cfg: Config, lines: seq<Line>, from: nat, n: nat, at: nat)
    requires FirstReply(cfg, lines, from, n, at)
    ensures from <= at < |lines| && lines[at].Object?
  {}

  lemma PendingIdsAreInternal(cfg: Config, s: State)
    requires TablesOk(cfg, s)
    ensures forall id | id in s.pending :: IsInternalId(cfg, id)
  {
    forall id | id in s.pending ensures IsInternalId(cfg, id) {
      var a :| a in s.handlers && HoldsFuture(s.handlers[a]) && InternalId(cfg, s.handlers[a].minted.value) == id;
    }
  }

  lemma ReadKeepsInv(cfg: Config, s: State, line: Line)
    requires Inv(cfg, s)
    ensures Inv(cfg, ReadChildLine(cfg, s, line))
  {
    hide HandlerOk, TablesOk, LogsOk, Firewalls.Inv, InternalId;
    var t := ReadChildLine(cfg, s, line);
    PendingIdsAreInternal(cfg, s);
    ReadLogs(cfg, s, line);
    forall h | h in t.handlers ensures HandlerOk(cfg, t, h) {
      ReadHandler(cfg, s, line, h);
    }
    assert t.pending.Keys == s.pending.Keys;
    SameTables(cfg, s, t);
  }

  lemma SameTables(cfg: Config, s: State, t: State)
    requires TablesOk(cfg, s)
    requires t.handlers == s.handlers && t.pending.Keys == s.pending.Keys && t.clientPending == s.clientPending
    ensures TablesOk(cfg, t)
  {
    hide ClaimedBySome, AwaitedBySome;
    assert forall id | id in t.pending :: id in s.pending.Keys;
  }

  lemma ExitKeepsInv(cfg: Config, s: State)
    requires Inv(cfg, s)
    ensures Inv(cfg, ChildExits(s))
  {
    hide HandlerOk, TablesOk, LogsOk, Firewalls.Inv;
    var t := ChildExits(s);
    forall h | h in t.handlers ensures HandlerOk(cfg, t, h) {
      ExitHandler(cfg, s, h);
    }
    assert t.pending.Keys == s.pending.Keys;
    SameTables(cfg, s, t);
    ExitLogs(cfg, s);
  }

  lemma ExitHandler(cfg: Config, s: State, h: nat)
    requires h in s.handlers && HandlerOk(cfg, s, h)
    ensures HandlerOk(cfg, ChildExits(s), h)
  {
    hide ShapeOk, CallOk, AnswersBy, SentBy, InternalId, FirstReply, NoReply;
  }

  lemma ExitLogs(cfg: Config, s: State)
    requires LogsOk(cfg, s)
    ensures LogsOk(cfg, ChildExits(s))
  {
    hide ShownOk, SentOk;
  }
}
