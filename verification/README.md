# Agent Firewall, modelled and proved

Agent Firewall decides, by a policy of first-match rules and run budgets, which tool calls of an agent may run, which are
blocked and which wait for a human; it reserves each permitted call against shared counters, records what happened, and
can stand as a stdio proxy in front of an MCP server. This project models that pipeline in Dafny and proves what it keeps.

| file | what it models |
|---|---|
| `Json`, `Text`, `Decimals` | JSON values, strings, decimal amounts with 28-digit half-even rounding |
| `Glob`, `GlobInclusion`, `Policy` (`Policies`) | globs, when one includes another, calls, usage, budgets, the evaluator |
| `Budgets` | caps and costs over runs of reservations |
| `StateStores` | the counters, the memory store and the SQLite store |
| `Firewall` (`Firewalls`), `FirewallRuns`, `GuardedCalls` | one call's lifecycle as steps; every interleaving of callers; the firewall class |
| `ProxyState`, `ProxyInvariant`, `ProxySteps`, `ProxyRuns`, `ProxyEndings`, `ProxyRelay`, `ProxyIds`, `ProxyStream`, `McpProxy` | the proxy protocol: state and stretches between awaits, the invariant, its preservation, every run, how handlers end, what is relayed, where internal ids show, the child's byte stream, the proxy class |
| `ToolRequests`, `ProxyLifecycle`, `ProxyAnswers` | what a client's message asks for, field by field; the firewall's life inside the proxy; what client and child are sent |
| `Composition`, `AuditedRuns` | the firewall with the queue as approver and the file as log, for one event and for a whole run |
| `LineReaders` | the two bounded line readers |
| `AuditLog`, `Approvals` | the append-only log, the approval queue |
| `Addresses`, `Paths`, `SqlScanner` | host spellings, lexical containment, the comment stripper |
| `Lint`, `Explain`, `Partials` | the linter's unreachability claims, explanations, argument flattening |

The layers share one JSON datatype, one call, one usage and one evaluator. What is concurrent is a state machine whose
steps are the stretches of code between two awaits (the proxy) or between two points at which another caller can run (the
firewall); the classes carry out these steps on their own fields, and each method's `ensures` equates its effect with the
step's, so the theorems about runs apply to it. What works on values is functions and lemmas. The outside (whether the
store, the log, the human or the operation cooperates, which chunk a read returns, what others commit) is a parameter
over which every theorem quantifies.

Where a promise is false of the code, the code is kept, a concrete input shows it, and the exact condition is proved:

| promise | fails for | holds exactly when |
|---|---|---|
| a response reaches the client as its request's answer only | `ForgedReplyIsRelayed` | `ClientSeesOnlyAnswers` |
| internal ids stay inside the proxy | `MentionsPass`, `ReplyMayMention` | `InternalIdsStayInside` |
| every request is answered | `FailedWriteIsUnanswered` | `AnsweredExactlyOnce`, `EscapedIff` |
| the child reader reports the stream's lines | `SmallLimitMisreports` | `FaithfulFromDrainOn` |
| a rule reported as shadowed is unreachable | `BracketsDefeatCovers`, `ReportedYetSelected` | `GlobCoversIsSound`, `PairReportIsRight` |
| stripping comments twice is stripping them once | `StripIsNotIdempotent` | `StripTwice` |
| the policy sees the arguments of the call | `HiddenPosition` | `PolicySeesTheCall` |
| going into a component and back gives the same path | `MeetingSlashes` | `DownAndUp` |

The linter's messages call a reported rule unreachable without the bracket condition, and the comment on its cover test
(`src/agent_firewall/lint.py:187-191`) rules out false positives; the comment in `src/agent_firewall/mcp_proxy.py:632-634`
says that a response with an internal id and no pending future does not escape, which holds of a lone response but not of
one in a batch. The model follows the code.

## Model

| member | source | states |
|---|---|---|
| ProxyEndings.AnsweredExactlyOnce | src/agent_firewall/mcp_proxy.py:368-448 | In every run (any interleaving of handlers, child lines, timeouts, stalls, aborts, child exit) a request never gets two answers and none before its handler ends; a claimed request whose handler ended has exactly one answer iff no event of the run was the failure of its passthrough write other than by a timeout, or the arrival of a request that cannot be encoded under its internal id; neither ever happens to a tools/call. |
| ProxyEndings.EscapedIff | src/agent_firewall/mcp_proxy.py:500-517 | A handler has ended unanswered by an error exactly when the run contains one of the events that do so (those two, and a batch whose errors cannot be encoded). |
| ProxyEndings.FailedWriteIsUnanswered | src/agent_firewall/mcp_proxy.py:509-517 | A concrete run that ends with a claimed request, its handler ended and no answer. |
| ProxyEndings.NextIsStep | src/agent_firewall/mcp_proxy.py:296-695 | Every event moves at most one handler, from one await to the next or to its end, leaves every other handler alone, and adds to what was exchanged with the child and relayed exactly what it exchanges. |
| ProxyEndings.EveryHandlerCanEnd | src/agent_firewall/mcp_proxy.py:544-581 | From every state of every run each suspended handler can be brought to its proper end by at most two events that need neither the child nor the client: deadlines passing, or the human's wait breaking off. |
| ProxyEndings.StalledForGood | src/agent_firewall/mcp_proxy.py:666-670 | Once a write has stalled, in the rest of any run no handler starts to write: whatever still reaches the child was already being written then. |
| ProxyEndings.ExitWakesEveryone | src/agent_firewall/mcp_proxy.py:638-644 | After the child's exit no future waits, those already done are unchanged and none is forgotten, and every handler awaiting a reply can take its future at once and end properly. |
| ProxyRuns.AnswersAreOwn | src/agent_firewall/mcp_proxy.py:544-581 | Every answer carries the id of its own request, and a payload from the child is the first method-free reply, since the mint, to the internal id minted for that very request, with only the id replaced. |
| ProxyRelay.RelayedAreThePassing | src/agent_firewall/mcp_proxy.py:610-637 | In every run the child lines relayed are exactly those that pass (within the size limit, not refused for duplicate keys or nesting, and not a lone response under an internal id), each once and in the child's order. |
| ProxyRelay.RelayedIffPasses | src/agent_firewall/mcp_proxy.py:612-637 | In every reachable state any given child line has been relayed iff it is neither too long nor untrusted and is no method-free object whose id is a string that begins with the prefix; batches, method-bearing objects and undecodable lines pass. |
| ProxyRelay.RepliesNeverLeak | src/agent_firewall/mcp_proxy.py:625-637 | A lone response under an internal id is never relayed, and at most one entry of the client's output comes from it: a late or duplicate one does not reach the client, whoever holds the client id by then. |
| ProxyRuns.ReplyReachesClient | src/agent_firewall/mcp_proxy.py:560-581 | A reply to a request still awaited can be taken by its handler, which then writes exactly that reply under the client's id, or, for a guarded call whose terminal event cannot be recorded, the error that says so. |
| ProxyRelay.RelayedIffNotInternal | src/agent_firewall/mcp_proxy.py:622-637 | A lone response of the child is relayed untouched, when it is read, exactly when its id does not carry the proxy's prefix. |
| ProxyRelay.ClientSeesOnlyAnswers | src/agent_firewall/mcp_proxy.py:605-644 | Nothing relayed bears a response, alone or in a batch, iff every child line that bears one is a lone response under an internal id; then every response the client receives is the answer of its request's handler. |
| ProxyIds.InternalIdsStayInside | src/agent_firewall/mcp_proxy.py:622-637 | In every reachable state: nothing shown to the client from the child mentions an internal id anywhere, be it in a string or key of a relayed line at whatever depth or in an answer beside its id, iff the child mentions such ids in lone responses only, and in those that became an answer only as their id. |
| ProxyIds.AnswerSaysTheSame | src/agent_firewall/mcp_proxy.py:544-581 | An answer taken from the child says, beside its id, exactly what the child's reply says. |
| ProxyRelay.PassingLineIsRelayed | src/agent_firewall/mcp_proxy.py:622-637 | For every line that passes, a run in which it is relayed while request 7 is unanswered. |
| ProxyRelay.ForgedReplyIsRelayed | src/agent_firewall/mcp_proxy.py:622-637 | A response naming the client's own id passes, alone and in a batch: without the first rule the guarantee fails. |
| ProxyIds.MentionsPass | src/agent_firewall/mcp_proxy.py:622-637 | Four lines that break the rule and pass: a reply to an internal id in a batch and in a nested batch, a method-bearing message under one, and a `notifications/cancelled` whose parameters name one. |
| ProxyIds.ReplyMayMention | src/agent_firewall/mcp_proxy.py:560-581 | A run in which a lone reply whose result names its internal id reaches the client with that result. |
| ProxyStream.ChildOutputIsTheStream | src/agent_firewall/mcp_proxy.py:605-637 | However the transport cuts the child's byte stream, with a limit of at least 65535 the child lines a run has read are the first lines of the stream, one for one, the longer ones as oversized, and those relayed are the ones among them that pass, in order. |
| ProxyStream.OutputIsWhatWasRead | src/agent_firewall/mcp_proxy.py:605-624 | At any moment of a run the child lines on record are those its events brought in, in order. |
| ProxyRuns.IdsInFlight | src/agent_firewall/mcp_proxy.py:524-542 | Two requests in flight never share a client id, and each table holds exactly the ids of requests in flight: nothing is forgotten in it and nothing is dropped early. |
| ProxyRuns.OnlyVettedLines | src/agent_firewall/mcp_proxy.py:296-337 | Every line ever written to the child, raw-forwarded ones included, is a lone message with a string method that is no alias of tools/call, or a method-free response: no undecodable or batch line is. |
| ProxyState.CallLikeIffAlias | src/agent_firewall/mcp_proxy.py:30-33 | A method counts as a spelling of tools/call iff, lower-cased, it is the two words with ASCII whitespace around each and one or more slashes between. |
| Text.AsciiSpaces | src/agent_firewall/mcp_proxy.py:30-33 | The ASCII whitespace of that expression and of the comment stripper is these six characters. |
| Text.LowerOfCapital | src/agent_firewall/mcp_proxy.py:30-33 | Ignoring case maps each of the 26 capitals to its letter. |
| Text.LowerOfOther | src/agent_firewall/mcp_proxy.py:30-33 | And changes nothing else. |
| Text.Spaces | src/agent_firewall/mcp_proxy.py:344-349 | Which characters count as whitespace where names are checked for being blank and statements are trimmed. |
| ProxyRuns.WrittenCallsAreReserved | src/agent_firewall/mcp_proxy.py:339-391 | Every tools/call message ever written to the child asks, field by field, for exactly the call the policy evaluated (its tool, the arguments it gives or none, the cost it estimates or zero), holds exactly one reservation, and is the only message of its handler. |
| ToolRequests.ParsedAsAsked | src/agent_firewall/mcp_proxy.py:339-366 | A message parses to a call exactly when its own fields ask for that call. |
| ToolRequests.RefusedIff | src/agent_firewall/mcp_proxy.py:344-366 | It is refused as malformed exactly when it asks for no call: no usable name, arguments that are no object, or an estimate that is no amount; and told the first of these. |
| ToolRequests.CallsAreVetted | src/agent_firewall/mcp_proxy.py:316-372 | Which messages go to the policy, and as what call. |
| ToolRequests.PassedOnUnjudged | src/agent_firewall/mcp_proxy.py:316-337 | Which go to the child unjudged: methods that are no spelling of tools/call, as requests or notifications, and replies. |
| ToolRequests.RefusedWith | src/agent_firewall/mcp_proxy.py:316-366 | All others are refused, silently without an id, otherwise with the code and text of the first thing wrong. |
| ToolRequests.LinesRefusedWith | src/agent_firewall/mcp_proxy.py:266-314 | A line that is no message is answered as the parse error it is; a batch with one error for each element that has an id, in order. |
| ToolRequests.DecisionsAreTold | src/agent_firewall/models.py:115-123 | A client can read the decision back from a refusal: two decisions are never told alike. |
| ProxyRuns.WrittenCallsAreCapped | src/agent_firewall/mcp_proxy.py:374-391 | From zero usage, the tools/call messages ever written never outnumber `tool_calls`, hence never `max_calls`, and every budget cap holds in every reachable state. |
| ProxyLifecycle.WrittenCallsWerePermitted | src/agent_firewall/mcp_proxy.py:339-391 | In every run a tools/call written to the child was let by the policy: the first rule that matches what it asks for, or the default where none does, allows it, or asks for an approval the human gave for that very call before it was written. |
| ProxyLifecycle.RunIsLifecycle | src/agent_firewall/firewall.py:134-151 | What the proxy's firewall goes through in any run is a run of the call lifecycle, so all that holds of those holds here. |
| ProxyLifecycle.EndIsJudged | src/agent_firewall/mcp_proxy.py:374-391 | However a guarded call ends, its verdict is the one its own reply gives: executed if the reply has neither `error` nor an object `result` whose `isError` is true, or if none was expected and the message was written; failed otherwise, on a timeout, a stalled or failed write, or the child's exit; on record and told as far as the log takes it. |
| ProxyLifecycle.ExecutedIffSucceeded | src/agent_firewall/mcp_proxy.py:374-391 | In every run a tools/call is on record as executed, or told to have been, iff one of the events happened to it in which such a call succeeds. |
| ProxyLifecycle.SucceedsByItsOwnReply | src/agent_firewall/mcp_proxy.py:556-581 | The reply a call succeeds with is the child's first to that call's own internal id, and reports no failure. |
| ProxyLifecycle.UnforwardedFails | src/agent_firewall/mcp_proxy.py:544-566 | A call that cannot be forwarded, after a stall or for its own depth, has failed. |
| ProxyAnswers.EndIsTold | src/agent_firewall/mcp_proxy.py:393-448 | However the wait for a reply ends, what the client is told then, with code and text: the reply, the timeout, the dead child, the error, or that the verdict could not be recorded. |
| ProxyAnswers.RefusalsAreTold | src/agent_firewall/mcp_proxy.py:395-420 | What a call that never ran is answered with: a block or a missing approver with the decision in full, anything else as not executed. |
| ProxyAnswers.UnadmittedIsTold | src/agent_firewall/mcp_proxy.py:368-372 | What a tools/call is told at once that never reaches the policy: that its id is in flight, or, for a name that breaks a line, that it was not executed. |
| ProxyAnswers.WrittenSays | src/agent_firewall/mcp_proxy.py:698-713 | What cannot be encoded is replaced by a shorter error under the same id, or by nothing. |
| ProxyAnswers.WrittenAsReceived | src/agent_firewall/mcp_proxy.py:544-566 | Whatever is written to the child is a line the client sent: as it came, or with nothing changed but the id, which is the prefix and a number. |
| ProxyRuns.PolicyRulesTheCall | src/agent_firewall/mcp_proxy.py:339-420 | From any state, a tools/call with an id goes on to the child iff the policy allows it and nothing else prevents it (each obstacle is named), reserved and under a fresh internal id; it is held iff approval is required and someone can be asked; a block is answered with the decision. |
| ProxyRuns.NextKeepsInv | src/agent_firewall/mcp_proxy.py:296-695 | Every event of the protocol keeps the invariant and leaves every suspended handler able to go on. |
| ProxyRuns.RunKeepsInv | src/agent_firewall/mcp_proxy.py:250-288 | Every state of every run satisfies the protocol invariant. |
| ProxyState.InternalIdInjective | src/agent_firewall/mcp_proxy.py:550-552 | Distinct request numbers give distinct child-facing ids. |
| ProxySteps.HandleClientLineKeepsInv | src/agent_firewall/mcp_proxy.py:296-391 | The stretch from a client line's arrival to its handler's first await keeps the invariant, for every kind of line. |
| ProxySteps.HearHumanKeepsInv | src/agent_firewall/mcp_proxy.py:386-442 | So does the stretch that follows a human's answer (approval, denial or an error of the approver). |
| ProxySteps.ForwardKeepsInv | src/agent_firewall/mcp_proxy.py:544-566 | So does forwarding up to its first await, including a refusal after a stalled write and a message too deep to encode. |
| ProxySteps.FinishWriteKeepsInv | src/agent_firewall/mcp_proxy.py:570-577 | So does the end of a child write, with time left or not. |
| ProxySteps.TakeReplyKeepsInv | src/agent_firewall/mcp_proxy.py:573-581 | So does a handler waking up on its future, replied or broken. |
| ProxySteps.FailKeepsInv | src/agent_firewall/mcp_proxy.py:567-581 | So does leaving an await on a timeout, a dead child or any other error, guarded call or passthrough. |
| ProxyInvariant.ClaimKeepsInv | src/agent_firewall/mcp_proxy.py:524-542 | Claiming an id not in flight keeps ids in flight distinct and the table exact. |
| ProxyInvariant.MintKeepsInv | src/agent_firewall/mcp_proxy.py:550-558 | Minting keeps internal ids unique and starts a future no earlier child line can have answered. |
| ProxyInvariant.AppendKeepsInv | src/agent_firewall/mcp_proxy.py:646-653 | Writing a handler's line to the child happens at most once per handler, and for a guarded call only after its operation started. |
| ProxyInvariant.ReleaseKeepsInv | src/agent_firewall/mcp_proxy.py:580-581 | Dropping a future leaves the pending table exactly the futures still awaited. |
| ProxyInvariant.FinishKeepsInv | src/agent_firewall/mcp_proxy.py:443-448 | Ending a handler gives up exactly its own claim and adds at most one answer. |
| ProxyInvariant.ReadKeepsInv | src/agent_firewall/mcp_proxy.py:605-637 | A child line resolves only the waiting future whose internal id it names, and only the first such line does. |
| ProxyInvariant.ExitKeepsInv | src/agent_firewall/mcp_proxy.py:638-644 | The end of the child's output breaks exactly the futures still waiting. |
| McpProxy.McpStdioProxy.OnClientLine | src/agent_firewall/mcp_proxy.py:296-337 | On the proxy's own fields, in any valid state: the client-line event happens, only its handler moves, and the invariant holds again. |
| McpProxy.McpStdioProxy.Dispatch | src/agent_firewall/mcp_proxy.py:316-391 | The branches on the decoded message (response, bad method, alias, other method, malformed call, call) have exactly the effect of the classification they implement. |
| McpProxy.McpStdioProxy.RejectLine | src/agent_firewall/mcp_proxy.py:266-314 | A line that is no message is answered as its class demands, a batch with all its errors or not at all, and goes no further. |
| McpProxy.McpStdioProxy.ClaimClientId | src/agent_firewall/mcp_proxy.py:524-542 | Claims the id iff it is not in flight, otherwise answers with the duplicate-id error and changes no table. |
| McpProxy.McpStdioProxy.BeginForward | src/agent_firewall/mcp_proxy.py:544-566 | Forwarding up to its first await has exactly the protocol's effect on the tables and the handler. |
| McpProxy.McpStdioProxy.EndCall | src/agent_firewall/mcp_proxy.py:386-448 | The terminal event is recorded before the client learns anything; the answer is the one the result and that recording determine. |
| McpProxy.McpStdioProxy.OnHumanAnswer | src/agent_firewall/mcp_proxy.py:386-442 | For a handler that is held: the human's answer happens, on the shared counters too, and the invariant holds again. |
| McpProxy.McpStdioProxy.OnWriteFinished | src/agent_firewall/mcp_proxy.py:563-577 | For a handler whose line was written: it goes on to await its reply or ends, and the invariant holds again. |
| McpProxy.McpStdioProxy.OnWriteFailed | src/agent_firewall/mcp_proxy.py:562-581 | For a handler that is writing: the failure ends it, with its future dropped first, and the invariant holds again. |
| McpProxy.McpStdioProxy.OnAbortFinished | src/agent_firewall/mcp_proxy.py:567-569 | For a handler whose write stalled: it ends as timed out, and the invariant holds again. |
| McpProxy.McpStdioProxy.OnReply | src/agent_firewall/mcp_proxy.py:573-581 | For a handler awaiting its reply, and only when its future is done: it ends with what the future holds, and the invariant holds again. |
| McpProxy.McpStdioProxy.OnReplyExpired | src/agent_firewall/mcp_proxy.py:573-581 | For a handler awaiting its reply: it ends as timed out, and the invariant holds again. |
| McpProxy.McpStdioProxy.OnChildLine | src/agent_firewall/mcp_proxy.py:610-637 | The line is shown to the client iff it passes; otherwise it resolves the one waiting future it names or is dropped; the invariant holds again. |
| McpProxy.McpStdioProxy.OnLineAppended | src/agent_firewall/mcp_proxy.py:646-653 | For a handler about to write: its line goes into the child's input whole, and the invariant holds again. |
| McpProxy.McpStdioProxy.OnWriteStalled | src/agent_firewall/mcp_proxy.py:654-670 | For a handler that is writing: the stall gives the child up for every handler, changes no table and writes nothing to either side, and the invariant holds again. |
| McpProxy.McpStdioProxy.OnChildExit | src/agent_firewall/mcp_proxy.py:638-644 | Every waiting future is broken, those already done stay, no id is forgotten, and the invariant holds again. |
| FirewallRuns.ReservedExactlyOnce | src/agent_firewall/firewall.py:181-241 | In every run with any number of concurrent callers, a started operation has exactly one reservation and starts once; a held call has none; a finished call whose operation never started is reserved iff its `allowed` or `approval_granted` write failed. |
| FirewallRuns.ApprovalCannotChangeTheRule | src/agent_firewall/firewall.py:214-241 | After an approval the second evaluation either repeats the decision the call was held for or is a budget block, whatever happened in between. |
| FirewallRuns.CapsHoldInEveryRun | src/agent_firewall/state.py:42-52 | From zero usage, in every reachable state operations started never outnumber `tool_calls`, every cap holds, and the per-tool and per-fingerprint counts each sum to `tool_calls`. |
| FirewallRuns.AuditTrail | src/agent_firewall/firewall.py:243-271 | At every moment each call's events are a prefix of one of the permitted lives; with auditing on an operation starts only after `allowed` or `approval_granted` is recorded; a raised audit error says after-execution iff the operation started; a normal end is recorded as what it was. |
| FirewallRuns.CostIsBoundedInEveryRun | src/agent_firewall/policy.py:176-183 | In every reachable state of concurrent callers, from zero usage, the stored cost is within `max_cost_usd`, and it and the exact sum of the n reserved costs are at most n * 5 * 10^-28 of it apart. |
| AuditedRuns.FileTellsTheRun | src/agent_firewall/audit.py:52-70 | With one audit file for a whole run of concurrent callers, failing and interrupted writes included: its lines are exactly the records that went in whole, in order, and at most one cut one at the end; every call's events are exactly those of its own records it was told of, in order. |
| AuditedRuns.IsALifecycleRun | src/agent_firewall/firewall.py:243-271 | Such a run moves the calls as a run of the lifecycle does, so all that holds of those runs holds of it. |
| FirewallRuns.RunExtends | src/agent_firewall/firewall.py:134-151 | Reservations and recorded events are only ever appended to, calls never change and starts are never undone. |
| FirewallRuns.NextKeepsInv | src/agent_firewall/firewall.py:181-271 | Every step of every caller keeps the lifecycle invariant. |
| FirewallRuns.RunKeepsInv | src/agent_firewall/firewall.py:134-151 | Every schedule of steps keeps it. |
| FirewallRuns.StartedMeansPermitted | src/agent_firewall/firewall.py:181-241 | In every run an operation that has started was let by the first rule that matches its call, or by the policy's default where none does: allowed, or held for an approval that its human gave. Nothing blocked ever starts. |
| FirewallRuns.RecordedAsItEnded | src/agent_firewall/firewall.py:147-150 | A call is on record as executed, or as failed, only if its operation ended that way. |
| FirewallRuns.CostIsTrackedInEveryRun | src/agent_firewall/models.py:133-140 | In every run, capped or not, the stored cost differs from the exact sum of the reserved costs by at most one part in 2 * 10^27 of the values the counter went through, and not at all while that sum has at most 28 digits. |
| Firewalls.EvaluateKeepsInv | src/agent_firewall/firewall.py:182-184 | A store transaction reserves at most once for the call and only after a passed budget check. |
| Firewalls.AuditKeepsInv | src/agent_firewall/firewall.py:243-271 | Recording an event, or failing to, moves the call to where the events and reservations it has belong. |
| GuardedCalls.Firewall.ExecuteSync | src/agent_firewall/firewall.py:87-107 | Uninterrupted, the operation runs iff policy, human, store and log all allow it; the outcome is the first obstacle or the way it ended; the shared usage grows by this call iff it ran or its authorization could not be recorded. |
| GuardedCalls.Firewall.Approve | src/agent_firewall/firewall.py:195-241 | A held call goes on iff the human approves, the store answers again and the approval is recorded; with the usage unchanged the second evaluation cannot block it. |
| GuardedCalls.SecondPhase | src/agent_firewall/firewall.py:230-241 | With the usage unchanged, re-evaluating an approved call repeats the first decision, and the call is ready unless the store or the log fails. |
| GuardedCalls.Firewall.Authorize | src/agent_firewall/firewall.py:181-193 | Authorization on the shared store has exactly the protocol's effect and tells its caller exactly what the call's record says. |
| GuardedCalls.Firewall.FinishApproval | src/agent_firewall/firewall.py:214-241 | The same for the human's answer, denial or approval with re-evaluation. |
| GuardedCalls.Firewall.RecordTerminal | src/agent_firewall/firewall.py:261-271 | The terminal event, whose failure is reported as after execution. |
| GuardedCalls.Firewall.Evaluate | src/agent_firewall/firewall.py:181-184 | One atomic evaluation and reservation; a store failure reserves nothing. |
| Composition.AnswerFromQueue | src/agent_firewall/firewall.py:195-241 | With the approval queue as the approver, a held call is finished by the first decision anyone makes on its row, and becomes ready only if that approves it. |
| Composition.RecordInFile | src/agent_firewall/firewall.py:243-259 | With the audit file as the log, an event counts as recorded iff its record went into the file, whole, right behind what was there. |
| Policies.FirstMatchWins | src/agent_firewall/policy.py:129-147 | A rule index is the one selected iff the rule matches and no earlier one does. |
| Policies.EvaluationIs | src/agent_firewall/policy.py:129-147 | An evaluation that passes the budget answers with the decision and reason of the first matching rule under its index, and with the policy's default where none matches; any other is a block that names no rule. |
| Policies.RuleMatchesWhen | src/agent_firewall/policy.py:259-303 | A rule matches a call whose name its glob matches and that has every argument the rule names with a value the pattern accepts: a typed pattern as its matcher says, a string as a glob, anything else only itself. |
| Policies.SameFingerprint | src/agent_firewall/models.py:91-101 | Two calls count as identical iff they name the same tool with arguments that agree in everything that stands in fewer than 65 containers. |
| Policies.ShallowFingerprints | src/agent_firewall/models.py:91-101 | So arguments that are nowhere nested that deep count as identical only if they are. |
| Policies.SecondEvaluation | src/agent_firewall/policy.py:129-147 | Whatever the usage, an evaluation says what the rules say or is a budget block, and when it does not block it is the rules' answer with the budget passed. |
| Json.StrictEqualIsEquality | src/agent_firewall/policy.py:282-303 | The recursive comparison decides exactly equality of JSON values, at every depth, with 1, true, 500 and 500.0 kept apart. |
| Json.BoundedIsShallow | src/agent_firewall/models.py:57-64 | The depth-bounded copy nests at most 65 containers whatever the input, and bounding again changes nothing. |
| Json.BoundedIffSame | src/agent_firewall/models.py:57-64 | Two values have the same bounded copy iff they agree above the bound. |
| Budgets.RecordKeepsCaps | src/agent_firewall/policy.py:149-184 | A reservation after a passed budget check keeps every cap and keeps both tables summing to the total. |
| Budgets.CheckIsExact | src/agent_firewall/policy.py:149-184 | The check blocks a call iff reserving it would pass a cap: nothing within the caps is blocked. |
| Budgets.CountersCount | src/agent_firewall/models.py:133-140 | From zero usage the counters hold how many calls were reserved in all, on each tool and under each fingerprint. |
| Budgets.RunKeepsCaps | src/agent_firewall/models.py:133-140 | Every usage reached by admitted reservations keeps every cap and adds up, if the starting usage did. |
| Budgets.ExactCostIsBounded | src/agent_firewall/policy.py:176-183 | The stored cost never exceeds `max_cost_usd`, and it and the exact sum of n reserved costs differ, either way, by at most n * 5 * 10^-28 of that, with addition rounding half-even to 28 digits. |
| Budgets.StoredTracksExact | src/agent_firewall/models.py:135 | In every run, capped or not, the two differ by at most one part in 2 * 10^27 of the values the counter went through. |
| Budgets.ExactUntilRounded | src/agent_firewall/models.py:135 | While no addition needs rounding the stored cost is the exact sum. |
| Budgets.SmallSumsAreExact | src/agent_firewall/models.py:135 | None does while the exact sum, in a unit all costs are multiples of, has at most 28 digits. |
| Decimals.HalfEvenIsNearest | src/agent_firewall/models.py:135 | Rounding picks a nearest multiple, and an even one on a tie. |
| Decimals.PlusIsNearest | src/agent_firewall/models.py:135 | The sum of two amounts as kept has at most 28 digits, no amount of at most 28 digits in whatever unit is nearer to the exact sum, and its coefficient is even where another is as near. |
| Decimals.PlusIsExact | src/agent_firewall/models.py:135 | It is the exact sum while that has at most 28 digits in the smaller of the two units. |
| Decimals.RoundedError | src/agent_firewall/models.py:135 | Rounding to 28 digits moves an amount, either way, by at most one part in 2 * 10^27 of the result. |
| Decimals.ExceedsInUnits | src/agent_firewall/policy.py:177-178 | Comparing amounts is exact and independent of the unit compared in. |
| StateStores.UsageCounters.Record | src/agent_firewall/models.py:133-140 | Updating the counters in place is recording one reservation. |
| StateStores.MemoryStateStore.EvaluateAndReserve | src/agent_firewall/state.py:42-52 | The answer is the evaluation of the usage before, the usage returned is the one kept, and it grows iff the decision reserves. |
| StateStores.SQLiteStateStore.EvaluateAndReserve | src/agent_firewall/state.py:70-94 | A failure at any statement, or corrupt tables, leaves the tables as they were and answers nothing; otherwise decision and tables are those of the transaction. |
| StateStores.WrittenLoadsBack | src/agent_firewall/state.py:133-192 | Writing a reservation into the three tables and loading them back is recording it in memory. |
| StateStores.LoadsWhatIsStored | src/agent_firewall/state.py:133-192 | Tables load to a usage iff they hold exactly that usage; whatever else they hold is refused. |
| StateStores.AnsweredIff | src/agent_firewall/state.py:70-94 | An attempt is answered iff the tables hold a usage and none of the statements it executes fails. |
| StateStores.TransactionRefines | src/agent_firewall/state.py:70-94 | A committed transaction answers as the memory store does and leaves tables that load back to the usage it returned. |
| StateStores.SqlRefinesMemory | src/agent_firewall/state.py:70-94 | Every serialized history, of any number of processes and with failures, gives exactly the answers and the final usage of one memory store run on the answered attempts. |
| LineReaders.ReadChildLine | src/agent_firewall/mcp_proxy.py:87-129 | For every chunking and every limit, one call takes what the schedule determines: exactly through the first newline or to the end of the stream, with nothing of later lines lost; when it is flagged is stated exactly. |
| LineReaders.ReadClientLine | src/agent_firewall/mcp_proxy.py:69-84 | The blocking reader consumes exactly one line and flags it iff it is longer than the limit. |
| LineReaders.ReadChild | src/agent_firewall/mcp_proxy.py:610-617 | For every schedule of chunk sizes the loop reports what that schedule determines, and for every limit of at least 65535 exactly the stream's lines in order, each flagged iff its length with the newline exceeds the limit. |
| LineReaders.FaithfulFromDrainOn | src/agent_firewall/mcp_proxy.py:109-129 | The child reader reports every stream as it is under every chunking iff the limit is at least 65535. |
| LineReaders.ReadClient | src/agent_firewall/mcp_proxy.py:266-277 | Repeated blocking reads give the same reports for the same stream, with any limit. |
| LineReaders.SmallLimitMisreports | src/agent_firewall/mcp_proxy.py:103-117 | For every smaller limit a concrete stream, read in the largest possible chunks, is misreported: draining an oversized line leaves a remainder longer than the limit, and the empty line in it is refused. |
| LineReaders.LinesJoin | src/agent_firewall/mcp_proxy.py:69-129 | The lines of a stream joined again are the stream. |
| LineReaders.LinesUnique | src/agent_firewall/mcp_proxy.py:69-129 | Splitting is the only way to cut a stream into lines of which all but the last are terminated. |
| LineReaders.FirstLineEnds | src/agent_firewall/mcp_proxy.py:69-84 | The first line has one newline, at its end, or the stream has none. |
| AuditLog.JsonlAuditLog.Append | src/agent_firewall/audit.py:52-70 | An append adds exactly its record, an interrupted one a prefix of it; after a torn tail it is refused and the file untouched. |
| AuditLog.OnlyGrows | src/agent_firewall/audit.py:52-70 | Over any run the earlier bytes are a prefix of the later ones. |
| AuditLog.TornIsFinal | src/agent_firewall/audit.py:57-65 | After a torn record nothing is ever recorded again and the file never changes. |
| AuditLog.RunAdds | src/agent_firewall/audit.py:52-70 | A run adds whole records in order and at most one torn prefix, present iff the file ends up torn. |
| AuditLog.ReadBack | src/agent_firewall/audit.py:52-70 | Splitting the file of any run at newlines returns exactly the whole records, and the torn prefix if there is one. |
| AuditLog.RecordedStays | src/agent_firewall/audit.py:66 | An entry reported as recorded is a line of the file at the end of the run, right after the records before it. |
| AuditLog.RedactShowsShapeOnly | src/agent_firewall/audit.py:73-78 | Two argument values are redacted alike iff they have the same keys and lengths at every level. |
| AuditLog.RedactIs | src/agent_firewall/audit.py:73-78 | A redacted value is the one value of the same shape with nothing in it but the mark. |
| Approvals.SQLiteApprovalQueue.Request | src/agent_firewall/approvals.py:83-93 | The row is inserted unless one exists, and the row read back keeps the tool and reason it was first requested with. |
| Approvals.SQLiteApprovalQueue.Decide | src/agent_firewall/approvals.py:145-177 | Which of the four results comes back, in terms of the row before, and that the table changes only by this decision and what others commit. |
| Approvals.SQLiteApprovalQueue.Wait | src/agent_firewall/approvals.py:68-81 | It always ends with the row decided for good and returns true iff the first decision on the call, an approval landing after the last poll included, was an approval; before the timeout it decides nothing itself. |
| Approvals.HistoryEvolves | src/agent_firewall/approvals.py:145-177 | Over any history of transactions rows are never lost, keep their contents, and never change once decided. |
| Approvals.DecidedAtMostOnce | src/agent_firewall/approvals.py:155-171 | A row leaves pending at most once, and exactly when it ends up decided without having been at the start. |
| Approvals.FirstDecisionWins | src/agent_firewall/approvals.py:155-171 | The status of a call is that of the first decision made on its row, whatever is tried later. |
| Approvals.RowIsItsHistory | src/agent_firewall/approvals.py:83-177 | From an empty table a row exists iff its call was requested; it says what the first request said and when, and what the first decision behind it was and when, or that there was none. |
| Approvals.WaitersAgree | src/agent_firewall/approvals.py:68-81 | Two waiters on one call that end at any two moments are told the same. |
| Addresses.LoneIntegerIsPrivateIff | src/agent_firewall/matchers.py:374-489 | A lone integer host, with or without a zone, is private iff it has more than 32 digits or, where a legacy parser exists, its value mod 2^32 is not global. |
| Addresses.SpellingsAgree | src/agent_firewall/matchers.py:420-475 | Spellings of integers congruent mod 2^32, in whatever bases and within the digit bound, are classed alike. |
| Addresses.SpellingReadsBack | src/agent_firewall/matchers.py:450-475 | Writing any integer in any of the three bases with any padding and reading it back gives its base and value. |
| Addresses.ValueIffSpelled | src/agent_firewall/matchers.py:432-463 | A text stands for an integer iff it is, up to the case of its letters, one of that integer's spellings with at most 32 digits. |
| Addresses.QuadIsPrivateIff | src/agent_firewall/matchers.py:374-430 | A canonical dotted quad, with or without a zone, is private iff the address it names is not global. |
| Addresses.ColonIsPrivateIff | src/agent_firewall/matchers.py:374-430 | A host with a colon is what the reader of IPv6 text makes of it, and only failing that what the legacy parser does. |
| Addresses.OtherHostIsPrivateIff | src/agent_firewall/matchers.py:374-475 | Any other host is private iff all its parts are integers and one too long to be any, or the legacy parser makes something non-global of it, or its decimal reading is non-global. |
| Addresses.DecimalReadingIsChecked | src/agent_firewall/matchers.py:404-417 | Four padded decimal parts whose decimal reading is not global are always private, whatever else they could mean. |
| Paths.ParseNormal | src/agent_firewall/matchers.py:503-505 | A normalized path has no empty, `.` or `..` component. |
| Paths.ParseRender | src/agent_firewall/matchers.py:503-505 | Rendering a normal path and reading it back loses nothing. |
| Paths.LexicalAbsIdempotent | src/agent_firewall/matchers.py:503-505 | Normalizing twice is normalizing once. |
| Paths.ParseMeans | src/agent_firewall/matchers.py:503-505 | The components of any path are its parts that are components and are not taken back, namely those behind which `..` never outnumbers the components that follow; two leading slashes are kept iff there are exactly two. |
| Paths.WithoutDotDot | src/agent_firewall/matchers.py:503-505 | Without `..` they are the parts other than the empty ones and `.`, in order. |
| Paths.OneMorePart | src/agent_firewall/matchers.py:503-505 | One more part: `.` and nothing leave the path, `..` takes its last component, a name is added. |
| Paths.DotSaysNothing | src/agent_firewall/matchers.py:503-505 | A `.` between two slashes changes no component, and the leading slashes iff slashes meet without it. |
| Paths.SlashSaysNothing | src/agent_firewall/matchers.py:503-505 | One more slash changes no component, and the leading slashes iff it is the second or third of a root. |
| Paths.NothingAboveTheRoot | src/agent_firewall/matchers.py:503-505 | A `..` with nothing to take back changes no component, wherever it stands. |
| Paths.RelativePath | src/agent_firewall/matchers.py:505 | A relative path is read behind one slash. |
| Paths.DownAndUp | src/agent_firewall/matchers.py:503-505 | Going into a component and back never changes the components, and gives the same path iff no extra slash meets at the root. |
| Paths.MeetingSlashes | src/agent_firewall/matchers.py:503-505 | They do meet in `//a/..//x`: going into a component and back leaves another path there. |
| Paths.WithinIffContains | src/agent_firewall/matchers.py:508-510 | The string test holds iff the target has no components, or both have the same number of leading slashes and the target's components are a prefix of the value's. |
| SqlScanner.StripSqlComments | src/agent_firewall/matchers.py:600-628 | The scanning loop computes the declarative reading of every string into spaces, code and comments. |
| SqlScanner.TokensTokenize | src/agent_firewall/matchers.py:600-628 | That reading covers the text, with every comment as long as it must be and no longer. |
| SqlScanner.TokensUnique | src/agent_firewall/matchers.py:600-628 | It is the only reading that does. |
| SqlScanner.StripJoins | src/agent_firewall/matchers.py:600-628 | Stripping is a homomorphism where the first piece ends in code and no delimiter forms at the seam. |
| SqlScanner.StripDropsComment | src/agent_firewall/matchers.py:610-625 | A closed comment between two pieces disappears: strip(a + comment + b) = strip(a) + strip(b). |
| SqlScanner.StripTwice | src/agent_firewall/matchers.py:600-628 | Stripping again changes nothing iff no two code characters of the text with only comments between them, at least one, make `--` or `/*`. |
| SqlScanner.StripIsNotIdempotent | src/agent_firewall/matchers.py:600-628 | A text for which it does: stripping it leaves two dashes together. |
| SqlScanner.OperationIffOneStatement | src/agent_firewall/matchers.py:585-597 | An operation is returned iff the trimmed text is non-empty and a semicolon-free body followed only by semicolons. |
| SqlScanner.OperationIsFirstWord | src/agent_firewall/matchers.py:585-597 | The operation is the first word of what is visible of the statement, in upper case. |
| SqlScanner.OperationHasAWord | src/agent_firewall/matchers.py:585-597 | And a statement with an operation does begin with a word. |
| SqlScanner.NothingHidesBehindASeparator | src/agent_firewall/matchers.py:592-597 | In accepted text, behind a separator there is only whitespace and separators. |
| SqlScanner.TrimUnique | src/agent_firewall/matchers.py:592 | Trimming leaves the one text with no whitespace at its ends that differs by whitespace only. |
| Glob.MatchOne | src/agent_firewall/matchers.py:96-103 | What each pattern character means on its own. |
| Glob.MatchIsAtomwise | src/agent_firewall/matchers.py:96-103 | Matching any pattern, brackets included, is matching the sequence of its atoms. |
| Glob.FinalStar | src/agent_firewall/lint.py:195 | A final star is a star whatever unclosed bracket stands before it. |
| Glob.MatchSplits | src/agent_firewall/matchers.py:96-103 | What a concatenation of atoms matches splits into what the parts match. |
| Glob.MatchJoins | src/agent_firewall/matchers.py:96-103 | And conversely, for the atoms of every pattern. |
| Glob.BracketsAreAClass | src/agent_firewall/matchers.py:96-103 | Brackets around a content in which a `]` stands at most first are one class, whatever follows. |
| Glob.ClassHolds | src/agent_firewall/matchers.py:96-103 | A class stands for its single characters and ranges together, or for all other characters when it begins with `!`. |
| Glob.OpenBracketIsLiteral | src/agent_firewall/matchers.py:96-103 | A bracket that nothing closes stands for itself. |
| Lint.CheckShadowedEquivalents | src/agent_firewall/lint.py:123-136 | The nested loops append exactly the reports of the repeated rules, in order, once each, to the shared list. |
| Lint.CheckApprovalShadowing | src/agent_firewall/lint.py:139-161 | The same for approval rules behind an unconstrained allow rule. |
| Lint.Check.ReportedIffFlagged | src/agent_firewall/lint.py:123-161 | A rule is reported iff some earlier rule hides it in the sense of the check. |
| Lint.EquivalentsUnreachable | src/agent_firewall/lint.py:123-136 | A rule reported as repeated is never the rule selected, for any call, usage and budget. |
| Lint.ShadowedApprovalsUnreachable | src/agent_firewall/lint.py:139-161 | Nor, for any call, usage and budget, an approval rule that some earlier reported rule truly covers, whatever brackets the other rules have; and it is reported. |
| Lint.ReportedApprovalsUnreachable | src/agent_firewall/lint.py:139-161 | In a policy whose tool patterns hold no brackets, an approval rule reported as shadowed is never selected, for any call, usage and budget. |
| Lint.PairReportIsRight | src/agent_firewall/lint.py:139-161 | For an allow rule and an approval rule the report is right iff the cover condition holds of the pair: otherwise some call selects the reported rule. |
| Lint.BracketFreeCovers | src/agent_firewall/lint.py:186-198 | The condition holds whenever the broad pattern has no bracket and either has a star or meets no class. |
| Lint.GlobCoversIsSound | src/agent_firewall/lint.py:186-198 | For every two patterns, brackets or not, a reported cover is a real one iff a condition read off their atoms holds: equal; a class without members; place by place; a shared or holding prefix; or, with several stars, the walk of the one along the other. |
| Lint.GlobCoversIsComplete | src/agent_firewall/lint.py:186-198 | Without brackets, and with a broad pattern of fixed length or plain text before a final star, one tool pattern covers another iff the check says so: no cover is missed. |
| GlobInclusion.StarFreeIncludes | src/agent_firewall/lint.py:198 | Between star-free patterns inclusion is inclusion place by place, or the smaller one matches nothing. |
| GlobInclusion.OneStarIncludes | src/agent_firewall/lint.py:194-196 | A pattern whose only star is its last atom includes another iff its other atoms hold what the other begins with. |
| GlobInclusion.SharedPrefixIncludes | src/agent_firewall/lint.py:194-196 | With stars anywhere it does whenever the other begins with the same atoms. |
| GlobInclusion.FollowsDecidesInclusion | src/agent_firewall/lint.py:186-198 | The walk decides inclusion of any two patterns. |
| Lint.BracketsDefeatCovers | src/agent_firewall/lint.py:186-198 | Concrete patterns for which the claim fails: a class on either side, and an unclosed bracket before the star. |
| Lint.ReportedYetSelected | src/agent_firewall/lint.py:139-161 | A policy with brackets whose reported rule is selected. |
| Explain.ExplainCall | src/agent_firewall/explain.py:93-121 | The loops build the explanation specified rule by rule. |
| Explain.ExplainBudget | src/agent_firewall/explain.py:124-176 | The branches list exactly the configured checks, in evaluation order. |
| Explain.BudgetAgrees | src/agent_firewall/explain.py:93-176 | The budget is reported triggered iff some listed check shows a quantity at its limit, or an amount past it; and then the first such check names the decision's code and the message its reason. |
| Explain.FirstTriggeredIsFirst | src/agent_firewall/explain.py:131-171 | What first triggered check means. |
| Explain.SelectedIsFirstMatched | src/agent_firewall/explain.py:99-114 | A rule is marked selected iff the decision is a rule match and it is the first rule marked matched. |
| Partials.CallArguments | src/agent_firewall/firewall.py:274-312 | The loop that rebinds tool, args and kwargs, and the filling of the dict, give what the policy is specified to see of the call the current tool, args and kwargs mean at every iteration. |
| Partials.CallsBase | src/agent_firewall/firewall.py:288-291 | Applying nested partials means calling the base function with their arguments inside out, then the caller's. |
| Partials.BindFindsEnvironment | src/agent_firewall/firewall.py:294-300 | For every call the language accepts, binding succeeds and gives exactly what the function receives, defaults included. |
| Partials.ReceivesIsUnique | src/agent_firewall/firewall.py:294-300 | A call determines what the function receives. |
| Partials.PolicySeesTheCall | src/agent_firewall/firewall.py:274-312 | The policy's view shows exactly the environment the base function receives iff no surplus keyword `_args` takes the place of surplus positions. |
| Partials.UnboundIsShownAsIs | src/agent_firewall/firewall.py:293-299 | Of a call whose function has no signature, or that does not bind, the policy sees the keywords as they are and the positions under `_args`. |
| Partials.BindsIff | src/agent_firewall/firewall.py:294-297 | Binding fails iff the call gives a parameter two values or something that no parameter takes. |
| Partials.HiddenPosition | src/agent_firewall/firewall.py:303-312 | A call for which it does not. |

## Left out

- Process spawning, pipes, signals, stderr messages, the hold hint, terminal prompts, the event loop and write-lock scheduling: a child write is one append of a whole line, which may instead fail or time out.
- The termination sequence of an aborted child: aborting is one suspended point after which the write is a timeout.
- JSON text: decoding a line is given as the class of line it yields, encoding as a predicate; the text of the error for a line that parses but is not trusted leaves out the reason it appends.
- `request_key`, `_arguments_key` and the call fingerprint are taken as injective, so ids, argument maps and calls stand for their keys; SHA-256 is not modelled.
- SQLite itself: a transaction is atomic, and a history of processes is a sequence of transactions; connection failures are a failing first statement. Storage errors of the approval queue are not modelled.
- The firewall class uses the memory store; that the SQLite store could take its place is `SqlRefinesMemory`.
- `_execute_async`: its interleavings are the runs of `FirewallRuns`; the class has the uninterrupted call only.
- Cancellation of handlers, and an operation that itself raises the firewall's audit error.
- Typed matchers other than path, address and SQL operation, and regular expressions, `shlex` and URL parsing: a typed match is an arbitrary predicate in the policy. IPv6 text and `inet_aton` are parameters.
- Money parsing and policy-file validation: amounts are non-negative decimals and policies are given.
- Exponent overflow and underflow of decimals: exponents are unbounded.
- Clocks: timestamps are a counter; `pending` with its age filter is not modelled.
- The other lint checks, the command line, the dashboard, the doctor, rendering and the benchmark: one-branch checks and text output.
- Contents of an audit entry other than the redacted arguments, and several processes writing one audit file.
- Positional-only parameters and a declared parameter named `_args` in argument flattening: the first differ between Python versions, the second is outside the promise.
- ProxyEndings.AnsweredExactlyOnce: asks that the short error with the request's id can be encoded, because otherwise the code writes nothing at all.
- Budgets.ExactCostIsBounded: starts from zero usage and from amounts that are multiples of one unit, which any finite list of decimals is.
- Partials.PolicySeesTheCall: covers base functions with an inspectable signature; without one the positions stay a list under `_args`.
