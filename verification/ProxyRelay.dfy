/**
 * What of the child's output reaches the client as it is, and under which behaviour of the child that is never an
 * answer.
 */
module ProxyRelay {
  import opened Json
  import opened ProxyState
  import opened ProxyInvariant
  import opened ProxyRuns
  import opened ProxyEndings
  import Firewalls

  // ---------------------------------------------------------------- ids and responses in a line

  /** An element of a batch that answers something. */
  predicate AnswersSomething(item: Value) { item.Obj? && "method" !in item.fields && "id" in item.fields }

  /** A line that a client reads as an answer: a response, or a batch with one in it. */
  predicate BearsResponse(line: Line)
  {
    IsResponse(line) || (line.Batch? && exists i | 0 <= i < |line.items| :: AnswersSomething(line.items[i]))
  }

  // ---------------------------------------------------------------- exactly what is relayed

  /** The places of the lines that pass, in order. */
  function Passing(cfg: Config, lines: seq<Line>): seq<nat>
  {
    if lines == [] then []
    else Passing(cfg, lines[..|lines| - 1]) + if Passes(cfg, lines[|lines| - 1]) then [|lines| - 1] else []
  }

  lemma PassingOneMore(cfg: Config, lines: seq<Line>, line: Line)
    ensures Passing(cfg, lines + [line]) == Passing(cfg, lines) + if Passes(cfg, line) then [|lines|] else []
  {
    hide Passes;
    assert (lines + [line])[..|lines|] == lines;
  }

  /**
   * In every run the lines relayed so far are exactly the ones that pass, each once, in the order the child wrote them.
   */
  lemma {:induction false} RelayedAreThePassing(cfg: Config, states: seq<State>, events: seq<Event>, n: nat)
    requires IsRun(cfg, states, events) && n <= |events|
    ensures RelayedOf(states[n].clientOutput) == Passing(cfg, states[n].childOutput)
  {
    hide Takes, Step, Inv, Passes, Initial;
    if n == 0 {
      NothingRelayed(cfg);
    } else {
      RelayedAreThePassing(cfg, states, events, n - 1);
      RunIsStep(cfg, states, events, n - 1);
      RelayStep(cfg, states[n - 1], events[n - 1], states[n]);
    }
  }

  lemma NothingRelayed(cfg: Config)
    ensures RelayedOf(Initial(cfg).clientOutput) == Passing(cfg, Initial(cfg).childOutput)
  {}

  lemma RelayStep(cfg: Config, s: State, e: Event, t: State)
    requires Step(cfg, s, e, t) && RelayedOf(s.clientOutput) == Passing(cfg, s.childOutput)
    ensures RelayedOf(t.clientOutput) == Passing(cfg, t.childOutput)
  {
    hide RelayedOf, Passing, Passes, OthersStay, TargetMoves;
    if e.ChildLine? { PassingOneMore(cfg, s.childOutput, e.line); }
  }

  lemma {:induction false} InRelayed(output: seq<Shown>, at: nat)
    ensures at in RelayedOf(output) <==> Relayed(at) in output
  {
    if output != [] {
      InRelayed(output[..|output| - 1], at);
      assert output == output[..|output| - 1] + [output[|output| - 1]];
    }
  }

  lemma {:induction false} InPassing(cfg: Config, lines: seq<Line>, at: nat)
    ensures at in Passing(cfg, lines) <==> at < |lines| && Passes(cfg, lines[at])
  {
    if lines != [] { InPassing(cfg, lines[..|lines| - 1], at); }
  }

  lemma PassesWhen(cfg: Config, line: Line)
    ensures Passes(cfg, line) <==>
            && line != Oversized && line != Untrusted
            && !(&& line.Object? && "method" !in line.message && "id" in line.message
                 && line.message["id"].Str? && cfg.prefix <= line.message["id"].s)
  {}

  /**
   * A child line has been relayed exactly when it is neither too long nor untrusted and is no method-free object whose
   * id is a string that begins with the prefix.
   */
  lemma RelayedIffPasses(cfg: Config, s: State, at: nat)
    requires Reached(cfg, s)
    ensures Relayed(at) in s.clientOutput <==> at < |s.childOutput| && Passes(cfg, s.childOutput[at])
    ensures Relayed(at) in s.clientOutput <==>
            && at < |s.childOutput|
            && var line := s.childOutput[at];
               && line != Oversized && line != Untrusted
               && !(&& line.Object? && "method" !in line.message && "id" in line.message
                    && line.message["id"].Str? && cfg.prefix <= line.message["id"].s)
  {
    if at < |s.childOutput| { PassesWhen(cfg, s.childOutput[at]); }
    var states, events :| IsRun(cfg, states, events) && states[|events|] == s;
    hide IsRun, Passes;
    RelayedAreThePassing(cfg, states, events, |events|);
    InRelayed(s.clientOutput, at);
    InPassing(cfg, s.childOutput, at);
  }

  /** A lone response is relayed, at the moment it is read, exactly when its id does not carry the proxy's prefix. */
  lemma RelayedIffNotInternal(cfg: Config, s: State, line: Line)
    requires Reached(cfg, s) && IsResponse(line)
    ensures ReadChildLine(cfg, s, line).clientOutput
            == if IsInternalId(cfg, line.message["id"]) then s.clientOutput
                else s.clientOutput + [Relayed(|s.childOutput|)]
  {
    hide Inv;
    ReachedInv(cfg, s);
    PendingIdsAreInternal(cfg, s);
    ReadEffect(cfg, s, line);
  }

  /**
   * A lone response under an internal id is never relayed, and at most one entry of the client's output is taken from
   * it: a late or duplicate one does not reach the client, whoever holds the client's id by then.
   */
  lemma RepliesNeverLeak(cfg: Config, s: State, at: nat, i: nat, j: nat)
    requires Reached(cfg, s) && at < |s.childOutput|
    requires IsResponse(s.childOutput[at]) && IsInternalId(cfg, s.childOutput[at].message["id"])
    requires i < |s.clientOutput| && j < |s.clientOutput|
    ensures s.clientOutput[i] != Relayed(at)
    ensures FromLine(s.clientOutput[i], at) && FromLine(s.clientOutput[j], at) ==> i == j
  {
    hide HandlerOk, Firewalls.Inv, InternalId, NoReply;
    ReachedInv(cfg, s);
    assert ShownOk(cfg, s.handlers, s.childOutput, s.clientOutput[i]);
    assert ShownOk(cfg, s.handlers, s.childOutput, s.clientOutput[j]);
    if FromLine(s.clientOutput[i], at) && FromLine(s.clientOutput[j], at) {
      var a, b := s.clientOutput[i].handler, s.clientOutput[j].handler;
      InternalIdInjective(cfg, s.handlers[a].minted.value, s.handlers[b].minted.value);
      assert a == b;
      AnsweredUnlessEscaped(cfg, s, a);
      if i < j {
        SingleAnswer(s.clientOutput, a, i, j);
      } else if j < i {
        SingleAnswer(s.clientOutput, a, j, i);
      }
    }
  }

  predicate FromLine(e: Shown, at: nat) { e.Answer? && e.source == Some(at) }

  // ---------------------------------------------------------------- what the child must keep to

  ghost predicate RelayedOnly(s: State, allowed: Line -> bool)
  {
    forall at: nat :: Relayed(at) in s.clientOutput ==> at < |s.childOutput| && allowed(s.childOutput[at])
  }

  /**
   * The child answers alone and only what it was asked: a line with a response in it is one response under an internal
   * id.
   */
  predicate ChildEchoes(cfg: Config, s: State)
  {
    forall i | 0 <= i < |s.childOutput| ::
      BearsResponse(s.childOutput[i]) ==>
        IsResponse(s.childOutput[i]) && IsInternalId(cfg, s.childOutput[i].message["id"])
  }

  /**
   * Nothing the client receives from the child as it is bears a response, exactly when the child keeps to
   * this rule.
   */
  lemma ClientSeesOnlyAnswers(cfg: Config, s: State)
    requires Reached(cfg, s)
    ensures RelayedOnly(s, line => !BearsResponse(line)) <==> ChildEchoes(cfg, s)
  {
    hide Reached, IsInternalId;
    forall at: nat ensures Relayed(at) in s.clientOutput <==> at < |s.childOutput| && Passes(cfg, s.childOutput[at]) {
      RelayedIffPasses(cfg, s, at);
    }
    assert forall line | BearsResponse(line) ::
        Passes(cfg, line) <==> !(IsResponse(line) && IsInternalId(cfg, line.message["id"]));
  }

  // ---------------------------------------------------------------- what happens when it does not

  const FORGED: Message := map["id" := Int(7), "result" := Null]

  /** A child may write, while request 7 is unanswered, any line that passes; then the client reads it. */
  lemma PassingLineIsRelayed(cfg: Config, env: Env, line: Line) returns (states: seq<State>, events: seq<Event>)
    requires (forall v :: cfg.encodes(v)) && Passes(cfg, line)
    ensures IsRun(cfg, states, events) && |events| == 2
    ensures var s := states[2];
            && 0 in s.handlers && HoldsClaim(s.handlers[0]) && s.handlers[0].message["id"] == Int(7)
            && s.handlers[0].minted == Some(1)
            && s.childOutput == [line] && s.clientOutput == [Relayed(0)]
  {
    hide IsRun, HandleClientLine, AllReady, CallReady, InternalId, Passes, Initial, ReadChildLine, IsInternalId;
    states, events := PingRun(cfg, env);
    ExtendRun(cfg, states, events, ChildLine(line));
    PingPending(cfg, states[1]);
    ReadEffect(cfg, states[1], line);
    states, events := states + [ReadChildLine(cfg, states[1], line)], events + [ChildLine(line)];
  }

  lemma PingPending(cfg: Config, s: State)
    requires s.pending == map[InternalId(cfg, 1) := Waiting]
    ensures forall id | id in s.pending :: IsInternalId(cfg, id)
  {}

  /** A response that names the client's own id, alone or in a batch, breaks that rule and passes. */
  lemma ForgedReplyIsRelayed(cfg: Config)
    ensures Passes(cfg, Object(FORGED)) && BearsResponse(Object(FORGED))
    ensures Passes(cfg, Batch([Obj(FORGED)])) && BearsResponse(Batch([Obj(FORGED)]))
  {
    assert AnswersSomething([Obj(FORGED)][0]);
  }
}
