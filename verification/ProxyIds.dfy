/** Whether an internal id is ever shown to the client, wherever in a line it stands. */
module ProxyIds {
  import opened Json
  import opened ProxyState
  import opened ProxyInvariant
  import opened ProxyRuns
  import opened ProxyEndings
  import opened ProxyRelay

  // ---------------------------------------------------------------- mentions

  predicate InText(prefix: string, text: string) { exists i | 0 <= i <= |text| :: prefix <= text[i..] }

  /** The prefix of the internal ids stands in some string or key of the value, at whatever depth. */
  predicate Mentions(prefix: string, value: Value)
  {
    match value
    case Str(s) => InText(prefix, s)
    case Arr(items) => exists i | 0 <= i < |items| :: Mentions(prefix, items[i])
    case Obj(fields) => exists key | key in fields :: InText(prefix, key) || Mentions(prefix, fields[key])
    case _ => false
  }

  predicate LineMentions(cfg: Config, line: Line)
  {
    match line
    case Object(m) => Mentions(cfg.prefix, Obj(m))
    case Batch(items) => Mentions(cfg.prefix, Arr(items))
    case Unusable(text) => InText(cfg.prefix, text)
    case _ => false
  }

  /** What a message says beside its id. */
  function Beside(m: Message): Value { Obj(m - {"id"}) }

  predicate IsLoneReply(cfg: Config, line: Line) { IsResponse(line) && IsInternalId(cfg, line.message["id"]) }

  // ---------------------------------------------------------------- what the client is shown

  /**
   * The entry comes from the child and mentions an internal id; the id of an answer is the client's own and does not
   * count.
   */
  predicate ShowsMention(cfg: Config, lines: seq<Line>, e: Shown)
  {
    match e
    case Relayed(at) => at < |lines| && LineMentions(cfg, lines[at])
    case Answer(_, body, source) => source.Some? && body.Obj? && Mentions(cfg.prefix, Beside(body.fields))
  }

  predicate WasTaken(s: State, at: nat) { exists e | e in s.clientOutput :: e.Answer? && e.source == Some(at) }

  /**
   * The child mentions an internal id only in lone replies, and in those that become an answer only as their id.
   */
  predicate ChildKeepsIds(cfg: Config, s: State)
  {
    forall at | 0 <= at < |s.childOutput| :: KeepsIdsAt(cfg, s, at)
  }

  predicate KeepsIdsAt(cfg: Config, s: State, at: nat)
    requires at < |s.childOutput|
  {
    && (LineMentions(cfg, s.childOutput[at]) ==> IsLoneReply(cfg, s.childOutput[at]))
    && (WasTaken(s, at) && s.childOutput[at].Object? ==> !Mentions(cfg.prefix, Beside(s.childOutput[at].message)))
  }

  ghost predicate NothingMentioned(cfg: Config, s: State)
  {
    forall e | e in s.clientOutput :: !ShowsMention(cfg, s.childOutput, e)
  }

  lemma PassesUnlessLone(cfg: Config, line: Line)
    ensures LineMentions(cfg, line) && !IsLoneReply(cfg, line) ==> Passes(cfg, line)
    ensures Passes(cfg, line) ==> !IsLoneReply(cfg, line)
  {
    hide Mentions, InText, IsInternalId;
  }

  /** An answer taken from the child says beside its id exactly what the child's reply says. */
  lemma AnswerSaysTheSame(cfg: Config, s: State, i: nat)
    requires Reached(cfg, s) && i < |s.clientOutput| && s.clientOutput[i].Answer? && s.clientOutput[i].source.Some?
    ensures var e := s.clientOutput[i];
            && e.source.value < |s.childOutput| && s.childOutput[e.source.value].Object? && e.body.Obj?
            && Beside(e.body.fields) == Beside(s.childOutput[e.source.value].message)
  {
    hide Reached, InternalId, NoReply;
    AnswersAreOwn(cfg, s, i);
    var e := s.clientOutput[i];
    var id, m := s.handlers[e.handler].message["id"], s.childOutput[e.source.value].message;
    assert m["id" := id] - {"id"} == m - {"id"};
  }

  /**
   * No internal id is ever shown to the client, in whatever line or answer, exactly when the child keeps to this rule.
   */
  lemma InternalIdsStayInside(cfg: Config, s: State)
    requires Reached(cfg, s)
    ensures NothingMentioned(cfg, s) <==> ChildKeepsIds(cfg, s)
  {
    hide Reached, KeepsIdsAt, ShowsMention;
    if NothingMentioned(cfg, s) {
      forall at | 0 <= at < |s.childOutput| ensures KeepsIdsAt(cfg, s, at) { MentionedAt(cfg, s, at); }
    }
    if ChildKeepsIds(cfg, s) {
      forall e | e in s.clientOutput ensures !ShowsMention(cfg, s.childOutput, e) {
        var i :| 0 <= i < |s.clientOutput| && s.clientOutput[i] == e;
        ShownByRule(cfg, s, i);
      }
    }
  }

  lemma MentionedAt(cfg: Config, s: State, at: nat)
    requires Reached(cfg, s) && at < |s.childOutput| && NothingMentioned(cfg, s)
    ensures KeepsIdsAt(cfg, s, at)
  {
    hide Reached, LineMentions, Mentions, Passes, IsLoneReply, Beside;
    RelayedIffPasses(cfg, s, at);
    PassesUnlessLone(cfg, s.childOutput[at]);
    if WasTaken(s, at) {
      var e :| e in s.clientOutput && e.Answer? && e.source == Some(at);
      var i :| 0 <= i < |s.clientOutput| && s.clientOutput[i] == e;
      AnswerSaysTheSame(cfg, s, i);
    }
  }

  lemma ShownByRule(cfg: Config, s: State, i: nat)
    requires Reached(cfg, s) && i < |s.clientOutput| && ChildKeepsIds(cfg, s)
    ensures !ShowsMention(cfg, s.childOutput, s.clientOutput[i])
  {
    hide Reached, LineMentions, Mentions, Passes, IsLoneReply, Beside;
    var e := s.clientOutput[i];
    if e.Relayed? {
      RelayedIffPasses(cfg, s, e.at);
      assert e == Relayed(e.at) && e in s.clientOutput;
      PassesUnlessLone(cfg, s.childOutput[e.at]);
      assert KeepsIdsAt(cfg, s, e.at);
    } else if e.source.Some? {
      AnswerSaysTheSame(cfg, s, i);
      assert WasTaken(s, e.source.value) && KeepsIdsAt(cfg, s, e.source.value);
    }
  }

  // ---------------------------------------------------------------- what happens when it does not

  function LateReply(cfg: Config): Message { map["id" := InternalId(cfg, 1), "result" := Null] }

  function Cancelled(cfg: Config): Message
  {
    map["method" := Str("notifications/cancelled"), "params" := Obj(map["requestId" := InternalId(cfg, 1)])]
  }

  lemma InternalIdMentions(cfg: Config, n: nat)
    ensures Mentions(cfg.prefix, InternalId(cfg, n))
  {
    assert InternalId(cfg, n).s[0..] == InternalId(cfg, n).s;
  }

  lemma FieldMentions(prefix: string, fields: Message, key: string)
    requires key in fields && Mentions(prefix, fields[key])
    ensures Mentions(prefix, Obj(fields))
  {}

  lemma ItemMentions(prefix: string, item: Value)
    requires Mentions(prefix, item)
    ensures Mentions(prefix, Arr([item]))
  {
    assert [item][0] == item;
  }

  /**
   * A reply to an internal id in a batch, however deep, a message with a method under such an id, and a notification
   * that names one in its parameters all pass.
   */
  lemma MentionsPass(cfg: Config)
    ensures var line := Batch([Obj(LateReply(cfg))]);
            Passes(cfg, line) && LineMentions(cfg, line) && BearsResponse(line)
    ensures var line := Batch([Arr([Obj(LateReply(cfg))])]); Passes(cfg, line) && LineMentions(cfg, line)
    ensures var line := Object(map["id" := InternalId(cfg, 1), "method" := Str("x")]);
            Passes(cfg, line) && LineMentions(cfg, line)
    ensures Passes(cfg, Object(Cancelled(cfg))) && LineMentions(cfg, Object(Cancelled(cfg)))
  {
    hide Mentions, InternalId;
    InternalIdMentions(cfg, 1);
    var late, id := Obj(LateReply(cfg)), InternalId(cfg, 1);
    FieldMentions(cfg.prefix, LateReply(cfg), "id");
    ItemMentions(cfg.prefix, late);
    ItemMentions(cfg.prefix, Arr([late]));
    FieldMentions(cfg.prefix, map["id" := id, "method" := Str("x")], "id");
    FieldMentions(cfg.prefix, map["requestId" := id], "requestId");
    FieldMentions(cfg.prefix, Cancelled(cfg), "params");
    assert AnswersSomething([late][0]);
  }

  /** The run in which request 7 has been written to the child and awaits its reply. */
  lemma AwaitingRun(cfg: Config, env: Env) returns (states: seq<State>, events: seq<Event>)
    requires forall v :: cfg.encodes(v)
    ensures IsRun(cfg, states, events) && |states| == |events| + 1
    ensures var s := states[|events|];
            && At(s, 0, AwaitingReply) && s.handlers[0].message == PING && s.handlers[0].kind.Requesting?
            && s.handlers[0].minted == Some(1) && s.pending == map[InternalId(cfg, 1) := Waiting]
            && s.clientOutput == [] && s.childOutput == []
  {
    hide IsRun, AllReady, CallReady, InternalId, HandleClientLine, ChildLineOf, Initial;
    states, events := PingRun(cfg, env);
    var s := states[1];
    ExtendRun(cfg, states, events, LineAppended(0));
    var t := Append(cfg, s, 0);
    states, events := states + [t], events + [LineAppended(0)];
    ExtendRun(cfg, states, events, WriteFinished(0, false, env));
    states, events := states + [MoveTo(t, 0, AwaitingReply)], events + [WriteFinished(0, false, env)];
  }

  /** From there any reply of the child is shown to the client, under its own id. */
  lemma RepliedRun(cfg: Config, env: Env, reply: Message) returns (states: seq<State>, events: seq<Event>)
    requires forall v :: cfg.encodes(v)
    requires IsReplyTo(cfg, Object(reply), 1)
    ensures IsRun(cfg, states, events)
    ensures var s := states[|events|];
            s.childOutput == [Object(reply)] && s.clientOutput == [Answer(0, Obj(reply["id" := Int(7)]), Some(0))]
  {
    hide IsRun, InternalId, AllReady, FutureDone, IsReplyTo, ReplyShown, Next, Enabled;
    states, events := AwaitingRun(cfg, env);
    var s := states[|events|];
    StillWaiting(cfg, s);
    PingReplyShown(cfg, s, reply, env);
    states, events := TakenRun(cfg, states, events, 0, Object(reply), env);
  }

  lemma TakenRun(cfg: Config, states: seq<State>, events: seq<Event>, h: nat, line: Line, env: Env)
      returns (states': seq<State>, events': seq<Event>)
    requires IsRun(cfg, states, events) && |states| == |events| + 1
    requires var s := states[|events|];
             && At(s, h, AwaitingReply) && !FutureDone(cfg, s, s.handlers[h])
             && s.handlers[h].minted.Some? && IsReplyTo(cfg, line, s.handlers[h].minted.value)
    ensures IsRun(cfg, states', events') && |states'| == |events'| + 1
    ensures var s, t := states[|events|], states'[|events'|];
            && "id" in s.handlers[h].message && t.childOutput == s.childOutput + [line]
            && t.clientOutput == s.clientOutput + ReplyShown(cfg, h, s.handlers[h], line.message, |s.childOutput|, env)
  {
    hide IsRun, Reached, InternalId, AllReady, FutureDone, IsReplyTo, ReplyShown, Next, Enabled, Step, Inv, At;
    var s, read, take := states[|events|], ChildLine(line), ReplyTaken(h, env);
    RunReaches(cfg, states, events, |events|);
    ReplyReachesClient(cfg, s, h, line, env);
    ReadNext(cfg, s, line);
    ExtendRun(cfg, states, events, read);
    var t := ReadChildLine(cfg, s, line);
    states', events' := states + [t], events + [read];
    ExtendRun(cfg, states', events', take);
    states', events' := states' + [Next(cfg, t, take)], events' + [take];
    RunIsStep(cfg, states', events', |events'| - 2);
    RunIsStep(cfg, states', events', |events'| - 1);
    StepReads(cfg, s, read, t);
    StepReads(cfg, t, take, states'[|events'|]);
  }

  lemma ReadNext(cfg: Config, s: State, line: Line)
    ensures Enabled(cfg, s, ChildLine(line))
    ensures AllReady(s) ==> Next(cfg, s, ChildLine(line)) == ReadChildLine(cfg, s, line)
  {
    hide AllReady, ReadChildLine;
  }

  lemma StillWaiting(cfg: Config, s: State)
    requires 0 in s.handlers && s.handlers[0].minted == Some(1) && s.pending == map[InternalId(cfg, 1) := Waiting]
    ensures !FutureDone(cfg, s, s.handlers[0])
  {
    hide InternalId;
  }

  lemma StepReads(cfg: Config, s: State, e: Event, t: State)
    requires Step(cfg, s, e, t)
    ensures t.childOutput == if e.ChildLine? then s.childOutput + [e.line] else s.childOutput
  {
    hide OthersStay, TargetMoves, Passes;
  }

  lemma PingReplyShown(cfg: Config, s: State, reply: Message, env: Env)
    requires (forall v :: cfg.encodes(v)) && 0 in s.handlers && s.handlers[0].message == PING
    requires s.handlers[0].kind.Requesting?
    ensures ReplyShown(cfg, 0, s.handlers[0], reply, 0, env) == [Answer(0, Obj(reply["id" := Int(7)]), Some(0))]
  {}

  /** And a lone reply whose result names its internal id is shown to the client with that result. */
  lemma ReplyMayMention(cfg: Config, env: Env) returns (states: seq<State>, events: seq<Event>)
    requires forall v :: cfg.encodes(v)
    ensures IsRun(cfg, states, events)
    ensures var s, id := states[|events|], InternalId(cfg, 1);
            && s.childOutput == [Object(map["id" := id, "result" := id])]
            && s.clientOutput == [Answer(0, Obj(map["id" := Int(7), "result" := id]), Some(0))]
            && ShowsMention(cfg, s.childOutput, s.clientOutput[0])
  {
    hide IsRun, InternalId, Mentions;
    InternalIdMentions(cfg, 1);
    var id := InternalId(cfg, 1);
    var reply: Message := map["id" := id, "result" := id];
    states, events := RepliedRun(cfg, env, reply);
    FieldMentions(cfg.prefix, map["result" := id], "result");
    assert map["id" := Int(7), "result" := id] - {"id"} == map["result" := id];
    assert reply["id" := Int(7)] == map["id" := Int(7), "result" := id];
  }
}
