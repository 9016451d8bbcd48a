/** The proxy's firewall lives as the lifecycle says: every run of the proxy is one of its runs. */
module ProxyLifecycle {
  import opened Json
  import opened Policies
  import opened ProxyState
  import opened ProxyInvariant
  import opened ProxyRuns
  import opened ProxyEndings
  import opened ToolRequests
  import Firewalls
  import FirewallRuns
  import ProxySteps

  type Steps = seq<(nat, FirewallRuns.Action)>

  // ---------------------------------------------------------------- steps of the lifecycle

  lemma {:induction false} RunAppend(cfg: Firewalls.Config, s: Firewalls.State, a: Steps, b: Steps)
    requires FirewallRuns.Run(cfg, s, a).Some?
    ensures FirewallRuns.Run(cfg, s, a + b) == FirewallRuns.Run(cfg, FirewallRuns.Run(cfg, s, a).value, b)
    decreases |a|
  {
    if a == [] {
      assert a + b == b;
    } else {
      hide FirewallRuns.Next, FirewallRuns.Enabled;
      assert (a + b)[0] == a[0] && (a + b)[1..] == a[1..] + b;
      RunAppend(cfg, FirewallRuns.Next(cfg, s, a[0].0, a[0].1), a[1..], b);
    }
  }

  lemma OneStep(cfg: Firewalls.Config, s: Firewalls.State, id: nat, a: FirewallRuns.Action)
    requires FirewallRuns.Enabled(s, id, a)
    ensures FirewallRuns.Run(cfg, s, [(id, a)]) == Some(FirewallRuns.Next(cfg, s, id, a))
  {
    hide FirewallRuns.Next, FirewallRuns.Enabled;
    assert [(id, a)][1..] == [];
  }

  /** One more step behind others. */
  lemma Then(cfg: Firewalls.Config, s: Firewalls.State, steps: Steps, id: nat, a: FirewallRuns.Action)
    requires FirewallRuns.Run(cfg, s, steps).Some?
    requires FirewallRuns.Enabled(FirewallRuns.Run(cfg, s, steps).value, id, a)
    ensures FirewallRuns.Run(cfg, s, steps + [(id, a)])
            == Some(FirewallRuns.Next(cfg, FirewallRuns.Run(cfg, s, steps).value, id, a))
  {
    hide FirewallRuns.Next, FirewallRuns.Enabled, FirewallRuns.Run;
    RunAppend(cfg, s, steps, [(id, a)]);
    OneStep(cfg, FirewallRuns.Run(cfg, s, steps).value, id, a);
  }

  lemma NoSteps(cfg: Firewalls.Config, s: Firewalls.State)
    ensures FirewallRuns.Run(cfg, s, []) == Some(s)
  {}

  /** All the steps are `h`'s; an approval, or an operation's success, is among them only as said. */
  predicate Only(steps: Steps, h: nat, approves: bool, succeeds: bool)
  {
    forall i | 0 <= i < |steps| ::
      && steps[i].0 == h
      && (steps[i].1 == FirewallRuns.HumanAnswers(true) ==> approves)
      && (steps[i].1 == FirewallRuns.Ends(true) ==> succeeds)
  }

  // ---------------------------------------------------------------- the end of a guarded operation

  /** The child's reply reports that the tool failed. */
  predicate ReportsFailure(reply: Message)
  {
    || "error" in reply
    || ("result" in reply && reply["result"].Obj? && "isError" in reply["result"].fields
        && reply["result"].fields["isError"] == Bool(true))
  }

  predicate Succeeded(result: Forwarded)
  {
    result.Delivered? || (result.Replying? && !ReportsFailure(result.reply))
  }

  lemma ConcludeCallSteps(cfg: Config, s: State, h: nat, result: Forwarded, env: Env) returns (steps: Steps)
    requires h in s.handlers && h in s.fw.calls && s.fw.calls[h].phase.Operating?
    ensures FirewallRuns.Run(cfg.fw, s.fw, steps) == Some(ConcludeCall(cfg, s, h, result, env).fw)
    ensures Only(steps, h, false, Succeeded(result))
  {
    hide Firewalls.AuditedCall, Finish, Written, ForwardedBody, ErrorResponse, FirewallRuns.Run;
    var ok := Succeeded(result);
    steps := [(h, FirewallRuns.Ends(ok))];
    OneStep(cfg.fw, s.fw, h, FirewallRuns.Ends(ok));
    Then(cfg.fw, s.fw, steps, h, FirewallRuns.Audits(env.terminal));
    steps := steps + [(h, FirewallRuns.Audits(env.terminal))];
    ConcludedFirewall(cfg, s, h, result, env);
  }

  lemma FinishKeepsFirewall(s: State, h: nat, escaped: bool, output: seq<Shown>)
    requires h in s.handlers
    ensures Finish(s, h, escaped, output).fw == s.fw
  {}

  lemma ConcludedFirewall(cfg: Config, s: State, h: nat, result: Forwarded, env: Env)
    requires h in s.handlers && h in s.fw.calls && s.fw.calls[h].phase.Operating?
    ensures ConcludeCall(cfg, s, h, result, env).fw
            == Firewalls.Audit(cfg.fw, Firewalls.EndOperation(s.fw, h, Succeeded(result)), h, env.terminal)
  {
    hide Firewalls.AuditedCall, Written, ForwardedBody, ErrorResponse;
  }

  lemma ConcludeSteps(cfg: Config, s: State, h: nat, result: Forwarded, env: Env) returns (steps: Steps)
    requires h in s.handlers
    requires s.handlers[h].kind.Calling? ==> h in s.fw.calls && s.fw.calls[h].phase.Operating?
    ensures FirewallRuns.Run(cfg.fw, s.fw, steps) == Some(Conclude(cfg, s, h, result, env).fw)
    ensures Only(steps, h, false, Succeeded(result))
  {
    hide FirewallRuns.Run, ConcludeCall, Finish;
    if s.handlers[h].kind.Calling? {
      steps := ConcludeCallSteps(cfg, s, h, result, env);
    } else {
      steps := [];
      NoSteps(cfg.fw, s.fw);
      RelayKeepsFirewall(cfg, s, h, result);
    }
  }

  lemma RelayKeepsFirewall(cfg: Config, s: State, h: nat, result: Forwarded)
    requires h in s.handlers
    ensures ConcludeRelay(cfg, s, h, result).fw == s.fw
  {
    hide Written, ForwardedBody;
  }

  lemma FailSteps(cfg: Config, s: State, h: nat, result: Forwarded, env: Env) returns (steps: Steps)
    requires h in s.handlers
    requires s.handlers[h].kind.Calling? ==> h in s.fw.calls && s.fw.calls[h].phase.Operating?
    ensures FirewallRuns.Run(cfg.fw, s.fw, steps) == Some(Fail(cfg, s, h, result, env).fw)
    ensures Only(steps, h, false, Succeeded(result))
  {
    hide FirewallRuns.Run, Conclude, InternalId;
    steps := ConcludeSteps(cfg, Release(cfg, s, h), h, result, env);
  }

  lemma ForwardSteps(cfg: Config, s: State, h: nat, env: Env) returns (steps: Steps)
    requires h in s.handlers
    requires s.handlers[h].kind.Calling? ==> h in s.fw.calls && s.fw.calls[h].phase.Operating?
    ensures FirewallRuns.Run(cfg.fw, s.fw, steps) == Some(Forward(cfg, s, h, env).fw)
    ensures Only(steps, h, false, false)
  {
    hide FirewallRuns.Run, Conclude, InternalId;
    steps := [];
    NoSteps(cfg.fw, s.fw);
    if s.childFailed {
      steps := ConcludeSteps(cfg, s, h, Unavailable, env);
    } else if "id" in s.handlers[h].message && !s.handlers[h].kind.Relaying? {
      var t := Mint(cfg, s, h);
      if !cfg.encodes(Obj(ChildMessage(cfg, t.handlers[h]))) {
        steps := ConcludeSteps(cfg, Release(cfg, t, h), h, OtherError, env);
      }
    }
  }

  // ---------------------------------------------------------------- authorization

  lemma EvaluateSteps(cfg: Firewalls.Config, s: Firewalls.State, h: nat, storeOk: bool, recorded: bool)
      returns (steps: Steps)
    requires h in s.calls && Firewalls.MayEvaluate(s.calls[h].phase)
    ensures FirewallRuns.Run(cfg, s, steps) == Some(Firewalls.EvaluateAndAudit(cfg, s, h, storeOk, recorded))
    ensures Only(steps, h, false, false)
  {
    hide Evaluate, FirewallRuns.Run;
    var evaluate, audit := FirewallRuns.Evaluates(storeOk), FirewallRuns.Audits(Firewalls.WriteOutcome(recorded));
    steps := [(h, evaluate)];
    OneStep(cfg, s, h, evaluate);
    if storeOk {
      Then(cfg, s, steps, h, audit);
      steps := steps + [(h, audit)];
    }
  }

  lemma SettleSteps(cfg: Config, s: State, h: nat, env: Env) returns (steps: Steps)
    requires h in s.handlers && s.handlers[h].kind.Calling? && h in s.fw.calls
    requires Firewalls.IsSettled(s.fw.calls[h].phase)
    ensures FirewallRuns.Run(cfg.fw, s.fw, steps) == Some(Settle(cfg, s, h, env).fw)
    ensures Only(steps, h, false, false)
  {
    hide FirewallRuns.Run, Forward, Finish, RefusalBody, AnswerTo;
    steps := [];
    NoSteps(cfg.fw, s.fw);
    if s.fw.calls[h].phase.Ready? {
      var fw, start := Firewalls.Start(s.fw, h), [(h, FirewallRuns.Starts)];
      OneStep(cfg.fw, s.fw, h, FirewallRuns.Starts);
      var rest := ForwardSteps(cfg, WithFirewall(s, fw), h, env);
      RunAppend(cfg.fw, s.fw, start, rest);
      steps := start + rest;
    } else if s.fw.calls[h].phase.Finished? {
      var output := RefusalIsAnswer(cfg, s, h, env);
      FinishKeepsFirewall(s, h, false, output);
    }
  }

  lemma AuthorizeSteps(cfg: Config, s: State, h: nat, call: ToolCall, env: Env) returns (steps: Steps)
    requires h in s.handlers && s.handlers[h].kind.Calling? && h !in s.fw.calls
    ensures FirewallRuns.Run(cfg.fw, s.fw, steps) == Some(Authorize(cfg, s, h, call, env).fw)
    ensures Only(steps, h, false, false)
  {
    hide FirewallRuns.Run, Settle, Firewalls.EvaluateAndAudit, Written, ErrorResponse;
    if !NameIsValid(call.name) {
      steps := [];
      NoSteps(cfg.fw, s.fw);
    } else {
      var fw, arrive := Created(s, h, call), [(h, FirewallRuns.Arrives(call))];
      OneStep(cfg.fw, s.fw, h, FirewallRuns.Arrives(call));
      var evaluate := EvaluateSteps(cfg.fw, fw, h, env.storeOk, env.recorded);
      RunAppend(cfg.fw, s.fw, arrive, evaluate);
      steps := arrive + evaluate;
      var t := WithFirewall(s, Firewalls.EvaluateAndAudit(cfg.fw, fw, h, env.storeOk, env.recorded));
      var rest := SettleSteps(cfg, t, h, env);
      RunAppend(cfg.fw, s.fw, steps, rest);
      steps := steps + rest;
    }
  }

  lemma ClaimThenSteps(cfg: Config, s: State, h: nat, call: Option<ToolCall>, env: Env) returns (steps: Steps)
    requires h in s.handlers && h !in s.fw.calls && (s.handlers[h].kind.Calling? <==> call.Some?)
    ensures FirewallRuns.Run(cfg.fw, s.fw, steps) == Some(ClaimThen(cfg, s, h, call, env).fw)
    ensures Only(steps, h, false, false)
  {
    hide FirewallRuns.Run, Authorize, Forward, Written, ErrorResponse;
    var x := s.handlers[h];
    if "id" in x.message && x.message["id"] in s.clientPending {
      steps := [];
      NoSteps(cfg.fw, s.fw);
    } else {
      var t := if "id" in x.message then Claim(s, h) else s;
      if call.Some? {
        steps := AuthorizeSteps(cfg, t, h, call.value, env);
      } else {
        steps := ForwardSteps(cfg, t, h, env);
      }
    }
  }

  lemma ClientLineSteps(cfg: Config, s: State, h: nat, line: Line, env: Env) returns (steps: Steps)
    requires h !in s.handlers && h !in s.fw.calls
    ensures FirewallRuns.Run(cfg.fw, s.fw, steps) == Some(HandleClientLine(cfg, s, h, line, env).fw)
    ensures Only(steps, h, false, false)
  {
    hide FirewallRuns.Run, ClaimThen, Forward, Classify, Written;
    steps := [];
    NoSteps(cfg.fw, s.fw);
    var category := Classify(cfg, line);
    var t := Spawn(s, h, line, KindOf(category));
    match category
    case Relay => steps := ForwardSteps(cfg, t, h, env);
    case Request => steps := ClaimThenSteps(cfg, t, h, None, env);
    case ToolCallRequest(call) => steps := ClaimThenSteps(cfg, t, h, Some(call), env);
    case _ =>
  }

  // ---------------------------------------------------------------- the human

  lemma HumanSteps(cfg: Config, fw: Firewalls.State, h: nat, reply: HumanReply, env: Env) returns (steps: Steps)
    requires h in fw.calls && fw.calls[h].phase.AwaitingApprover?
    ensures FirewallRuns.Run(cfg.fw, fw, steps) == Some(HumanStep(cfg, fw, h, reply, env))
    ensures Only(steps, h, reply.Approves?, false)
  {
    hide FirewallRuns.Run, Firewalls.EvaluateAndAudit, Firewalls.AuditedCall;
    var first :=
      if reply.Raises? then FirewallRuns.ApproverFails else FirewallRuns.HumanAnswers(reply.Approves?);
    steps := [(h, first)];
    OneStep(cfg.fw, fw, h, first);
    if reply.Denies? {
      Then(cfg.fw, fw, steps, h, FirewallRuns.Audits(env.denial));
      steps := steps + [(h, FirewallRuns.Audits(env.denial))];
    } else if reply.Approves? {
      var rest := EvaluateSteps(cfg.fw, Firewalls.Answer(fw, h, true), h, env.storeOk, env.recorded);
      RunAppend(cfg.fw, fw, steps, rest);
      steps := steps + rest;
    }
  }

  lemma HearSteps(cfg: Config, s: State, h: nat, reply: HumanReply, env: Env) returns (steps: Steps)
    requires h in s.handlers && s.handlers[h].kind.Calling?
    requires h in s.fw.calls && s.fw.calls[h].phase.AwaitingApprover?
    ensures FirewallRuns.Run(cfg.fw, s.fw, steps) == Some(HearHuman(cfg, s, h, reply, env).fw)
    ensures Only(steps, h, reply.Approves?, false)
  {
    hide FirewallRuns.Run, Settle, HumanStep;
    steps := HumanSteps(cfg, s.fw, h, reply, env);
    var rest :=
      SettleSteps(cfg, WithFirewall(MoveTo(s, h, Starting), HumanStep(cfg, s.fw, h, reply, env)), h, env);
    RunAppend(cfg.fw, s.fw, steps, rest);
    steps := steps + rest;
  }

  // ---------------------------------------------------------------- events

  predicate Approving(e: Event, h: nat) { e.Human? && e.h == h && e.reply.Approves? }

  /**
   * The events in which a guarded operation succeeds: its reply is taken and reports no failure, or it expected none
   * and has been written.
   */
  predicate Succeeding(cfg: Config, s: State, e: Event, h: nat)
  {
    && h in s.handlers && TargetOf(e) == Some(h)
    && var x := s.handlers[h];
       || (e.WriteFinished? && x.minted.None?)
       || (&& e.ReplyTaken? && x.minted.Some? && InternalId(cfg, x.minted.value) in s.pending
           && s.pending[InternalId(cfg, x.minted.value)].Replied?
           && !ReportsFailure(s.pending[InternalId(cfg, x.minted.value)].reply))
  }

  lemma FinishWriteSteps(cfg: Config, s: State, h: nat, expired: bool, env: Env) returns (steps: Steps)
    requires h in s.handlers
    requires s.handlers[h].kind.Calling? ==> h in s.fw.calls && s.fw.calls[h].phase.Operating?
    ensures FirewallRuns.Run(cfg.fw, s.fw, steps) == Some(FinishWrite(cfg, s, h, expired, env).fw)
    ensures Only(steps, h, false, s.handlers[h].minted.None?)
  {
    hide FirewallRuns.Run, Conclude, Release;
    steps := [];
    NoSteps(cfg.fw, s.fw);
    if s.handlers[h].minted.None? {
      steps := FailSteps(cfg, s, h, Delivered, env);
    } else if expired {
      steps := FailSteps(cfg, s, h, TimedOut, env);
    }
  }

  lemma TakeReplySteps(cfg: Config, s: State, h: nat, env: Env) returns (steps: Steps)
    requires h in s.handlers && FutureDone(cfg, s, s.handlers[h])
    requires s.handlers[h].kind.Calling? ==> h in s.fw.calls && s.fw.calls[h].phase.Operating?
    ensures FirewallRuns.Run(cfg.fw, s.fw, steps) == Some(TakeReply(cfg, s, h, env).fw)
    ensures Only(steps, h, false, Succeeding(cfg, s, ReplyTaken(h, env), h))
  {
    hide FirewallRuns.Run, Fail, InternalId;
    match s.pending[InternalId(cfg, s.handlers[h].minted.value)]
    case Replied(reply, at) => steps := FailSteps(cfg, s, h, Replying(reply, at), env);
    case Broken => steps := FailSteps(cfg, s, h, Unavailable, env);
  }

  lemma ReadKeepsFirewall(cfg: Config, s: State, line: Line)
    ensures ReadChildLine(cfg, s, line).fw == s.fw
  {}

  lemma NothingDone(h: nat)
    ensures Only([], h, false, false)
  {}

  lemma OnlyWhen(steps: Steps, h: nat, a: bool, b: bool, approves: bool, succeeds: bool)
    requires Only(steps, h, a, b) && (a ==> approves) && (b ==> succeeds)
    ensures Only(steps, h, approves, succeeds)
  {}

  lemma WrittenSucceeds(cfg: Config, s: State, h: nat, expired: bool, env: Env)
    requires h in s.handlers
    ensures s.handlers[h].minted.None? ==> Succeeding(cfg, s, WriteFinished(h, expired, env), h)
  {
    hide InternalId;
  }

  /** What an event does to the firewall are steps of the lifecycle, all of the event's own handler. */
  lemma HandlerSteps(cfg: Config, s: State, e: Event, h: nat) returns (steps: Steps)
    requires Inv(cfg, s) && Enabled(cfg, s, e) && TargetOf(e) == Some(h)
    ensures AllReady(s) && FirewallRuns.Run(cfg.fw, s.fw, steps) == Some(Next(cfg, s, e).fw)
    ensures Only(steps, h, Approving(e, h), Succeeding(cfg, s, e, h))
  {
    hide Inv, HandleClientLine, HearHuman, FinishWrite, Fail, TakeReply, InternalId, AllReady, FutureDone,
        FirewallRuns.Run, Only, Succeeding, ReadChildLine, ChildExits;
    InvIsReady(cfg, s);
    ProxySteps.CallsAreHandled(cfg, s);
    var succeeds := false;
    steps := [];
    NoSteps(cfg.fw, s.fw);
    NothingDone(h);
    if !e.ClientLine? { ReadyCall(s, h); }
    match e {
      case ClientLine(_, line, env) => steps := ClientLineSteps(cfg, s, h, line, env);
      case Human(_, reply, env) => steps := HearSteps(cfg, s, h, reply, env);
      case LineAppended(_) =>
      case WriteFinished(_, expired, env) =>
        steps := FinishWriteSteps(cfg, s, h, expired, env);
        WrittenSucceeds(cfg, s, h, expired, env);
        succeeds := s.handlers[h].minted.None?;
      case WriteFailed(_, env) => steps := FailSteps(cfg, s, h, OtherError, env);
      case WriteStalled(_) =>
      case AbortFinished(_, env) => steps := FailSteps(cfg, s, h, TimedOut, env);
      case ReplyTaken(_, env) =>
        steps := TakeReplySteps(cfg, s, h, env);
        succeeds := Succeeding(cfg, s, e, h);
      case ReplyExpired(_, env) => steps := FailSteps(cfg, s, h, TimedOut, env);
    }
    OnlyWhen(steps, h, Approving(e, h), succeeds, Approving(e, h), Succeeding(cfg, s, e, h));
  }

  lemma ReaderKeepsFirewall(cfg: Config, s: State, e: Event)
    requires Enabled(cfg, s, e) && AllReady(s) && TargetOf(e).None?
    ensures Next(cfg, s, e).fw == s.fw
  {
    hide AllReady, ReadChildLine, HandleClientLine, HearHuman, FinishWrite, Fail, TakeReply;
    match e
    case ChildLine(line) => ReadKeepsFirewall(cfg, s, line);
    case ChildExited =>
  }

  // ---------------------------------------------------------------- whole runs

  ghost predicate ApprovedBy(events: seq<Event>, h: nat, n: nat)
    requires n <= |events|
  {
    exists i | 0 <= i < n :: Approving(events[i], h)
  }

  ghost predicate SucceededBy(cfg: Config, states: seq<State>, events: seq<Event>, h: nat, n: nat)
    requires n <= |events| && n <= |states|
  {
    exists i | 0 <= i < n :: Succeeding(cfg, states[i], events[i], h)
  }

  lemma StartsAlike(cfg: Config)
    ensures Initial(cfg).fw == Firewalls.Initial(cfg.fw)
  {}

  lemma OnlyTells(steps: Steps, h: nat, approves: bool, succeeds: bool)
    requires Only(steps, h, approves, succeeds)
    ensures forall id | FirewallRuns.ApprovedIn(steps, id) :: id == h && approves
    ensures forall id | FirewallRuns.EndedIn(steps, id, true) :: id == h && succeeds
  {}

  lemma StepsOf(cfg: Config, s: State, e: Event, t: State) returns (steps: Steps)
    requires Inv(cfg, s) && Takes(cfg, s, e, t)
    ensures FirewallRuns.Run(cfg.fw, s.fw, steps) == Some(t.fw)
    ensures forall h | FirewallRuns.ApprovedIn(steps, h) :: Approving(e, h)
    ensures forall h | FirewallRuns.EndedIn(steps, h, true) :: Succeeding(cfg, s, e, h)
  {
    hide Inv, Next, Enabled, AllReady, FirewallRuns.Run, Succeeding, Approving;
    if TargetOf(e).Some? {
      var h := TargetOf(e).value;
      steps := HandlerSteps(cfg, s, e, h);
      OnlyTells(steps, h, Approving(e, h), Succeeding(cfg, s, e, h));
    } else {
      steps := [];
      NoSteps(cfg.fw, s.fw);
      ReaderKeepsFirewall(cfg, s, e);
    }
  }

  lemma BothParts(a: Steps, b: Steps)
    ensures forall id | FirewallRuns.ApprovedIn(a + b, id) ::
              FirewallRuns.ApprovedIn(a, id) || FirewallRuns.ApprovedIn(b, id)
    ensures forall id | FirewallRuns.EndedIn(a + b, id, true) ::
              FirewallRuns.EndedIn(a, id, true) || FirewallRuns.EndedIn(b, id, true)
  {}

  lemma OneMoreEvent(cfg: Config, states: seq<State>, events: seq<Event>, n: nat)
    requires 0 < n <= |events| && n <= |states|
    ensures forall h | ApprovedBy(events, h, n - 1) || Approving(events[n - 1], h) :: ApprovedBy(events, h, n)
    ensures forall h | SucceededBy(cfg, states, events, h, n - 1)
                       || Succeeding(cfg, states[n - 1], events[n - 1], h) ::
              SucceededBy(cfg, states, events, h, n)
  {
    hide Approving, Succeeding;
  }

  /**
   * What the firewall of a proxy goes through in a run is a run of the lifecycle, so all that holds of those holds
   * here; an approval in it is an answer of the human to that very call, and a success one of the events that are.
   */
  lemma {:induction false} RunIsLifecycle(cfg: Config, states: seq<State>, events: seq<Event>, n: nat)
      returns (schedule: Steps)
    requires IsRun(cfg, states, events) && n <= |events|
    ensures FirewallRuns.Run(cfg.fw, Firewalls.Initial(cfg.fw), schedule) == Some(states[n].fw)
    ensures forall h | FirewallRuns.ApprovedIn(schedule, h) :: ApprovedBy(events, h, n)
    ensures forall h | FirewallRuns.EndedIn(schedule, h, true) :: SucceededBy(cfg, states, events, h, n)
  {
    hide IsRun, Takes, Inv, Initial, FirewallRuns.Run, Succeeding, Approving, ApprovedBy, SucceededBy;
    RunStarts(cfg, states, events);
    StartsAlike(cfg);
    if n == 0 {
      schedule := [];
      NoSteps(cfg.fw, Firewalls.Initial(cfg.fw));
    } else {
      var before := RunIsLifecycle(cfg, states, events, n - 1);
      RunKeepsInv(cfg, states, events, n - 1);
      RunTakes(cfg, states, events, n - 1);
      var steps := StepsOf(cfg, states[n - 1], events[n - 1], states[n]);
      RunAppend(cfg.fw, Firewalls.Initial(cfg.fw), before, steps);
      schedule := before + steps;
      BothParts(before, steps);
      OneMoreEvent(cfg, states, events, n);
    }
  }

  /**
   * In every run whatever tools/call has been written to the child was let by the policy: the first rule that matches
   * what the message asks for, or the default where none does, allows it, or asks for an approval that the human gave
   * for this very call, before it was written.
   */
  lemma WrittenCallsWerePermitted(cfg: Config, states: seq<State>, events: seq<Event>, n: nat, i: nat)
    requires IsRun(cfg, states, events) && n <= |events|
    requires i < |states[n].childInput| && CallsTool(states[n].childInput[i].line)
    ensures exists call ::
              && AsksFor(cfg, states[n].childInput[i].line.message, call)
              && var h, policy := states[n].childInput[i].handler, cfg.fw.policy;
                 && (forall k: nat | IsFirstMatch(policy, call, k) ::
                       FirewallRuns.Lets(cfg.fw, policy.rules[k].decision, ApprovedBy(events, h, n)))
                 && (NoneMatches(policy, call) ==>
                       FirewallRuns.Lets(cfg.fw, policy.defaultDecision, ApprovedBy(events, h, n)))
  {
    hide IsRun, Reached, FirewallRuns.Run, AsksFor, IsFirstMatch, NoneMatches, ApprovedBy, SucceededBy;
    RunStarts(cfg, states, events);
    RunReaches(cfg, states, events, n);
    WrittenCallsAreReserved(cfg, states[n], i);
    var schedule := RunIsLifecycle(cfg, states, events, n);
    var h := states[n].childInput[i].handler;
    FirewallRuns.StartedMeansPermitted(cfg.fw, schedule, h);
    assert AsksFor(cfg, states[n].childInput[i].line.message, states[n].fw.calls[h].call);
  }

  // ---------------------------------------------------------------- the verdict on a guarded call

  /** The call has ended with this verdict: it is on record, and told, as far as the log takes it. */
  predicate Concluded(cfg: Firewalls.Config, before: Firewalls.Call, after: Firewalls.Call, ok: bool,
      terminal: Firewalls.AuditOutcome)
  {
    var event := if ok then Firewalls.Executed else Firewalls.Failed;
    if cfg.auditing && terminal != Firewalls.Recorded then
      after.events == before.events && after.phase == Firewalls.Finished(Firewalls.AuditFailed(event, true))
    else
      && after.events == before.events + (if cfg.auditing then [event] else [])
      && after.phase == Firewalls.Finished(if ok then Firewalls.Returned else Firewalls.OperationRaised)
  }

  lemma ConcludedCall(cfg: Config, s: State, h: nat, result: Forwarded, env: Env)
    requires h in s.handlers && h in s.fw.calls && s.fw.calls[h].phase.Operating?
    ensures var t := ConcludeCall(cfg, s, h, result, env);
            h in t.fw.calls && Concluded(cfg.fw, s.fw.calls[h], t.fw.calls[h], Succeeded(result), env.terminal)
  {
    hide ConcludeCall, Succeeded;
    ConcludedFirewall(cfg, s, h, result, env);
  }

  lemma FailedCall(cfg: Config, s: State, h: nat, result: Forwarded, env: Env)
    requires h in s.handlers && s.handlers[h].kind.Calling? && h in s.fw.calls && s.fw.calls[h].phase.Operating?
    ensures var t := Fail(cfg, s, h, result, env);
            h in t.fw.calls && Concluded(cfg.fw, s.fw.calls[h], t.fw.calls[h], Succeeded(result), env.terminal)
  {
    hide ConcludeCall, Concluded, Succeeded, InternalId;
    ConcludedCall(cfg, Release(cfg, s, h), h, result, env);
  }

  lemma FinishedCall(cfg: Config, s: State, h: nat, expired: bool, env: Env)
    requires h in s.handlers && s.handlers[h].kind.Calling? && h in s.fw.calls && s.fw.calls[h].phase.Operating?
    requires expired || s.handlers[h].minted.None?
    ensures var t := FinishWrite(cfg, s, h, expired, env);
            h in t.fw.calls
            && Concluded(cfg.fw, s.fw.calls[h], t.fw.calls[h],
                   Succeeding(cfg, s, WriteFinished(h, expired, env), h), env.terminal)
  {
    hide Concluded, InternalId, Conclude, Release;
    FailedCall(cfg, s, h, if s.handlers[h].minted.None? then Delivered else TimedOut, env);
  }

  lemma TakenCall(cfg: Config, s: State, h: nat, env: Env)
    requires h in s.handlers && s.handlers[h].kind.Calling? && h in s.fw.calls && s.fw.calls[h].phase.Operating?
    requires FutureDone(cfg, s, s.handlers[h])
    ensures var t := TakeReply(cfg, s, h, env);
            h in t.fw.calls
            && Concluded(cfg.fw, s.fw.calls[h], t.fw.calls[h], Succeeding(cfg, s, ReplyTaken(h, env), h), env.terminal)
  {
    hide Fail, Concluded, InternalId, ReportsFailure;
    match s.pending[InternalId(cfg, s.handlers[h].minted.value)]
    case Replied(reply, at) => FailedCall(cfg, s, h, Replying(reply, at), env);
    case Broken => FailedCall(cfg, s, h, Unavailable, env);
  }

  lemma LostFails(cfg: Config, s: State, e: Event, h: nat)
    requires e.WriteFailed? || e.AbortFinished? || e.ReplyExpired?
    ensures !Succeeding(cfg, s, e, h)
  {
    hide InternalId, ReportsFailure;
  }

  /** The events that end a guarded call whose operation is under way. */
  predicate Ending(s: State, e: Event, h: nat)
    requires h in s.handlers
  {
    TargetOf(e) == Some(h)
    && (e.WriteFailed? || e.AbortFinished? || e.ReplyTaken? || e.ReplyExpired?
        || (e.WriteFinished? && (e.expired || s.handlers[h].minted.None?)))
  }

  predicate IsEnding(e: Event)
  {
    e.WriteFailed? || e.AbortFinished? || e.ReplyTaken? || e.ReplyExpired? || e.WriteFinished?
  }

  /**
   * However a guarded call ends, the verdict on it is the one its own reply gives: executed if the reply taken has no
   * `error` and no `isError`, or if none was expected and the message was written; failed if it has, and failed on a
   * timeout, a stalled or failed write, or the child's exit.
   */
  lemma EndIsJudged(cfg: Config, s: State, e: Event, h: nat)
    requires Inv(cfg, s) && Enabled(cfg, s, e) && IsEnding(e)
    requires h in s.handlers && s.handlers[h].kind.Calling? && Ending(s, e, h)
    ensures AllReady(s) && h in s.fw.calls && s.fw.calls[h].phase.Operating?
    ensures var t := Next(cfg, s, e);
            h in t.fw.calls
            && Concluded(cfg.fw, s.fw.calls[h], t.fw.calls[h], Succeeding(cfg, s, e, h), e.env.terminal)
  {
    hide Inv, Fail, FinishWrite, TakeReply, InternalId, AllReady, FutureDone, Concluded, HandleClientLine, HearHuman,
        ReadChildLine, Succeeding;
    InvIsReady(cfg, s);
    ReadyCall(s, h);
    if e.WriteFailed? || e.AbortFinished? || e.ReplyExpired? { LostFails(cfg, s, e, h); }
    match e
    case WriteFinished(_, expired, env) => FinishedCall(cfg, s, h, expired, env);
    case WriteFailed(_, env) => FailedCall(cfg, s, h, OtherError, env);
    case AbortFinished(_, env) => FailedCall(cfg, s, h, TimedOut, env);
    case ReplyExpired(_, env) => FailedCall(cfg, s, h, TimedOut, env);
    case ReplyTaken(_, env) => TakenCall(cfg, s, h, env);
  }

  /** A call that cannot be forwarded at all, once the child is given up or for its own depth, has failed. */
  lemma UnforwardedFails(cfg: Config, s: State, h: nat, env: Env)
    requires h in s.handlers && s.handlers[h].kind.Calling? && h in s.fw.calls && s.fw.calls[h].phase.Operating?
    requires var m := s.handlers[h].message;
             s.childFailed || ("id" in m && !cfg.encodes(Obj(m["id" := InternalId(cfg, s.sequence + 1)])))
    ensures var t := Forward(cfg, s, h, env);
            h in t.fw.calls && Concluded(cfg.fw, s.fw.calls[h], t.fw.calls[h], false, env.terminal)
  {
    hide ConcludeCall, Concluded, InternalId;
    if s.childFailed {
      ConcludedCall(cfg, s, h, Unavailable, env);
    } else {
      ConcludedCall(cfg, Release(cfg, Mint(cfg, s, h), h), h, OtherError, env);
    }
  }

  lemma EndingEvent(cfg: Config, s: State, e: Event, t: State, h: nat)
    requires Inv(cfg, s) && Takes(cfg, s, e, t) && Succeeding(cfg, s, e, h) && s.handlers[h].kind.Calling?
    ensures h in t.fw.calls && t.fw.calls[h].phase.Finished? && FirewallRuns.SaysEnded(t.fw.calls[h], true)
  {
    hide Inv, Next, Enabled, AllReady;
    SucceedingEnds(cfg, s, e, h);
    EndIsJudged(cfg, s, e, h);
  }

  lemma SucceedingEnds(cfg: Config, s: State, e: Event, h: nat)
    requires Succeeding(cfg, s, e, h)
    ensures h in s.handlers && Ending(s, e, h) && IsEnding(e)
  {
    hide InternalId, ReportsFailure;
  }

  lemma CallStays(cfg: Config, s: State, e: Event, t: State, h: nat)
    requires Inv(cfg, s) && Takes(cfg, s, e, t) && h in s.fw.calls && s.fw.calls[h].phase.Finished?
    ensures h in t.fw.calls && t.fw.calls[h] == s.fw.calls[h]
  {
    hide Inv, Takes, FirewallRuns.Run;
    var steps := StepsOf(cfg, s, e, t);
    FirewallRuns.RunExtends(cfg.fw, s.fw, steps);
  }

  /** A handler is what it was: a guarded call stays one. */
  lemma KindStays(cfg: Config, s: State, e: Event, t: State, h: nat)
    requires Step(cfg, s, e, t) && h in s.handlers
    ensures h in t.handlers && t.handlers[h].kind == s.handlers[h].kind
  {
    hide LogsStep, Escapes, AtRest;
  }

  lemma {:induction false} SuccessStays(cfg: Config, states: seq<State>, events: seq<Event>, h: nat, n: nat)
    requires IsRun(cfg, states, events) && n <= |events| && h in states[n].handlers
             && states[n].handlers[h].kind.Calling?
    requires SucceededBy(cfg, states, events, h, n)
    ensures var fw := states[n].fw;
            h in fw.calls && fw.calls[h].phase.Finished? && FirewallRuns.SaysEnded(fw.calls[h], true)
  {
    hide IsRun, Takes, Inv, Step, Succeeding, FirewallRuns.SaysEnded;
    RunStarts(cfg, states, events);
    var i :| 0 <= i < n && Succeeding(cfg, states[i], events[i], h);
    RunTakes(cfg, states, events, n - 1);
    RunIsStep(cfg, states, events, n - 1);
    SucceedingHandler(cfg, states[i], events[i], h);
    if i == n - 1 {
      KindStays(cfg, states[i], events[i], states[n], h);
      EndingEvent(cfg, states[i], events[i], states[n], h);
    } else {
      HandlerStays(cfg, states, events, h, i, n - 1);
      KindStays(cfg, states[n - 1], events[n - 1], states[n], h);
      assert SucceededBy(cfg, states, events, h, n - 1);
      SuccessStays(cfg, states, events, h, n - 1);
      CallStays(cfg, states[n - 1], events[n - 1], states[n], h);
    }
  }

  lemma SucceedingHandler(cfg: Config, s: State, e: Event, h: nat)
    requires Succeeding(cfg, s, e, h)
    ensures h in s.handlers
  {
    hide InternalId, ReportsFailure;
  }

  lemma {:induction false} HandlerStays(
      cfg: Config, states: seq<State>, events: seq<Event>, h: nat, i: nat, n: nat)
    requires IsRun(cfg, states, events) && i <= n <= |events| && h in states[i].handlers
    ensures h in states[n].handlers && states[n].handlers[h].kind == states[i].handlers[h].kind
    decreases n
  {
    hide IsRun, Step, Inv;
    RunStarts(cfg, states, events);
    if i < n {
      HandlerStays(cfg, states, events, h, i, n - 1);
      RunIsStep(cfg, states, events, n - 1);
      KindStays(cfg, states[n - 1], events[n - 1], states[n], h);
    }
  }

  /**
   * In every run a tools/call is on record as executed, or told to have been, exactly when one of the events happened
   * to it in which such a call succeeds.
   */
  lemma ExecutedIffSucceeded(cfg: Config, states: seq<State>, events: seq<Event>, h: nat, n: nat)
    requires IsRun(cfg, states, events) && n <= |events| && h in states[n].handlers
             && states[n].handlers[h].kind.Calling?
    ensures h in states[n].fw.calls && FirewallRuns.SaysEnded(states[n].fw.calls[h], true)
            <==> SucceededBy(cfg, states, events, h, n)
  {
    hide IsRun, FirewallRuns.Run, SucceededBy, FirewallRuns.SaysEnded;
    RunStarts(cfg, states, events);
    if SucceededBy(cfg, states, events, h, n) { SuccessStays(cfg, states, events, h, n); }
    if h in states[n].fw.calls && FirewallRuns.SaysEnded(states[n].fw.calls[h], true) {
      var schedule := RunIsLifecycle(cfg, states, events, n);
      FirewallRuns.RecordedAsItEnded(cfg.fw, schedule, h, true);
    }
  }

  predicate ReportsSuccess(lines: seq<Line>, at: nat)
  {
    at < |lines| && lines[at].Object? && !ReportsFailure(lines[at].message)
  }

  /** The reply a call succeeds with is the child's first to that very call's internal id, and reports no failure. */
  lemma SucceedsByItsOwnReply(cfg: Config, s: State, h: nat, env: Env)
    requires Inv(cfg, s) && At(s, h, AwaitingReply) && Succeeding(cfg, s, ReplyTaken(h, env), h)
    ensures var x := s.handlers[h];
            && x.minted.Some?
            && exists at :: FirstReply(cfg, s.childOutput, x.mintedAt, x.minted.value, at)
                            && ReportsSuccess(s.childOutput, at)
  {
    hide Inv, InternalId, FirstReply, ReportsFailure;
    ProxySteps.InFlightFacts(cfg, s, h);
    var x := s.handlers[h];
    var at := s.pending[InternalId(cfg, x.minted.value)].at;
    FirstReplyInRange(cfg, s.childOutput, x.mintedAt, x.minted.value, at);
    assert FirstReply(cfg, s.childOutput, x.mintedAt, x.minted.value, at) && ReportsSuccess(s.childOutput, at);
  }
}
