# Verified core of dagens

A Dafny model of seven parts of the dagens agent runtime, with proofs about all inputs, all runs
and all interleavings of each part.

| files | part of the system |
|---|---|
| `Text`, `Sse`, `SseProofs`, `SseBroken`, `StreamClient` | the server-sent event writer and reader, the streaming handler, and the client loop that numbers chunks |
| `Graph`, `Hierarchy`, `BaseAgent` | the agent hierarchy: adding and removing sub-agents, the name search, the walks to the root |
| `DagStages`, `DagOrder` | turning agent dependencies into ordered stages |
| `InvocationContext`, `AutoFlow`, `AutoFlowBounds` | transfers between agents that may answer anything, their scope and their budget |
| `Archive`, `ArchiveExport`, `ArchivePrune`, `ArchiveEndToEnd` | exporting finished jobs, verifying the bundle files, and pruning the live rows while other writers go on |
| `Mailbox`, `RestartWindow`, `Supervisor` | one actor process with racing senders and stops, the restart limiter, and the supervisor over the registry |
| `Template` | the `{key}` interpolator |

State that the program changes in place is a class here (`SSEReader`, `SSEWriter`, `BaseAgent`,
`AgentDAG`, `InvocationContext`, `AutoFlow`, `Store`, `System`, `Supervisor`). Each method is tied
to a function, or to a sequence of states, on values, and the theorems are about those. What the
program cannot control is a parameter that may be anything:
the answers of agents, the writes of other database clients before every single statement, the
order of sends, receives and stops, the clock, cancellation, and the point where a stream breaks.

Where the code does less than its comments or names suggest, the model follows the code and the
exact condition is proved:

- A dependency shared by two agents can land in a stage that is too late
  (`DagOrder.SharedDependencyTooLate`). Stages respect dependencies exactly when no cycle is
  reachable and the leftmost path to each agent is a longest one (`DagOrder.StageOrderIff`).
- A second or later call of an actor process's `Stop` returns at once, and processing can go on
  after it exactly when the loop runs and a message is pending (`Mailbox.LaterStopIsNoBarrier`).
- The transfer scope documented as any agent in the hierarchy never reaches the root of an acyclic
  hierarchy, and reaches every other agent (`AutoFlowBounds.AllScopeExcludesRoot`).
- Nothing checks for cycles when a sub-agent is added. The hierarchy stays acyclic exactly when the
  child is not the receiver or above it (`Hierarchy.AttachAcyclic`).
- Different job ids can share a bundle file. Verification fails exactly then, or when a job changed
  state after it was listed (`ArchiveExport.VerifiedIff`).
- A transition added between prune's count and its delete is deleted without being archived
  (`ArchiveEndToEnd.LateTransitionLost`). While transitions are only inserted, this is the only way to
  lose one (`ArchivePrune.NothingLostIff`).
- Restarting a configured child leaves a second live process exactly when the registered process is
  live and the supervisor does not track it (`Supervisors.RestartIff`). The restart strategy is never consulted.
- The strict interpolator can refuse a text whose keys all resolve, because inserted text can
  complete a placeholder with the braces around it (`Template.ResolvedButRefused`). It succeeds
  exactly when all keys resolve and no opening brace in a gap or a value is completed by what follows
  it (`Template.StrictIff`).
- The transfer path starts with the root of the hierarchy even when the run started elsewhere
  (`AutoFlowBounds.PathFromBelow`). It names the agents that ran exactly when the root has the name of
  the start agent (`AutoFlowBounds.PathIff`).
- Remote execution runs an agent in the context of the last invocation without making it the current
  agent, so a transfer is recorded from an agent that did not run (`AutoFlows.RemoteMisrecorded`). The
  records describe the run exactly when the agent was the current one or nothing is transferred
  (`AutoFlows.FollowedIff`), and the execution itself is not limited (`AutoFlows.EntriesUncounted`).

## Model

| member | source | states |
|---|---|---|
| Text.ScanDecimal | pkg/a2a/sse.go:94-98 | the retry scanner reads back every retry number the writer prints |
| Text.ScanSigned | pkg/a2a/sse.go:94-98 | blanks, an optional sign and a number followed by anything are read as the signed number, or as 0 outside 64 bits |
| Text.ScanNothing | pkg/a2a/sse.go:94-98 | a value that starts with neither a digit nor a sign is read as 0 |
| Text.JoinSplit | pkg/a2a/sse.go:65-68 | joining the lines of a data text gives the text back, and no line holds the separator |
| Sse.DecodeByCalls | pkg/a2a/sse.go:38-101 | decoding a stream is what repeated read calls return one after the other, up to the end of the stream or the transport error |
| Sse.SSEReader.ReadEvent | pkg/a2a/sse.go:38-101 | the result and the unread lines are those of the reading function, for every buffer and for both ways a stream can end |
| Sse.SSEWriter.FormatData | pkg/a2a/sse.go:172-180 | one data line per line of the text, in order |
| Sse.SSEWriter.Format | pkg/a2a/sse.go:147-192 | id, name, data and retry lines in this order, each only when it is set |
| Sse.SSEWriter.Flush | pkg/a2a/sse.go:147-192 | the response body stays the concatenation of what every logged item prints |
| Sse.SSEWriter.WriteEvent | pkg/a2a/sse.go:147-192 | exactly this event is added to the stream and everything sent before stays |
| Sse.SSEWriter.WriteComment | pkg/a2a/sse.go:200-207 | exactly this comment is added to the stream |
| Sse.SSEWriter.Close | pkg/a2a/sse.go:210-215 | a closing event named done with the status is added |
| Sse.SSEWriter.Body | pkg/a2a/sse.go:147-215 | the body sent is the encoding of all items written, in order |
| SseProofs.TakeField | pkg/a2a/sse.go:72-99 | a printed field line is read back as an assignment of its value, with the line end trimmed |
| SseProofs.FeedEvent | pkg/a2a/sse.go:38-101 | reading all lines of an event rebuilds id, name, data lines and retry, whatever retry was pending |
| SseProofs.RoundTrip | pkg/a2a/sse.go:38-207 | reading any written stream of events and comments gives its visible events in order, with retry-only events absorbed, whether the stream then ends or breaks |
| SseProofs.ExactRoundTrip | pkg/a2a/sse.go:38-192 | a list of events comes back unchanged if and only if every event has content, a single-line id and name, and no carriage return before a line end |
| SseProofs.DecodedClean | pkg/a2a/sse.go:38-101 | whatever bytes arrive, every event read has content, a single-line id and name, and no carriage return before a line end |
| SseProofs.ReadAgain | pkg/a2a/sse.go:38-192 | whatever bytes arrive, writing the events read and reading them again gives the same events, up to a non-positive retry |
| SseProofs.CommentsIgnored | pkg/a2a/sse.go:73-207 | a comment anywhere in a stream changes nothing that is read |
| SseProofs.RetryAbsorbed | pkg/a2a/sse.go:59-98 | a retry-only event yields nothing and sets the retry of the next event unless that one has its own |
| SseProofs.Truncation | pkg/a2a/sse.go:38-192 | a stream cut at any character gives its whole events and then, exactly when a whole data line of the next one arrived, that event with its id, its name, exactly the data lines that arrived and its retry if that line arrived, then the end |
| SseBroken.NthRead | pkg/a2a/sse.go:38-101 | whatever lines arrive and however the stream ends, the k-th read call returns the k-th event, and the call after the last one the end or the transport error |
| SseBroken.BreakFails | pkg/a2a/sse.go:44-54 | a transport error before a blank line is returned as that error and never as an event, whatever was read before it |
| SseBroken.BrokenTruncation | pkg/a2a/sse.go:38-192 | a written stream cut at any character and broken there gives exactly its whole events and no part of the next one |
| SseBroken.BrokenReads | pkg/a2a/sse.go:38-192 | its read calls return those events one by one and then the transport error |
| SseBroken.BareField | pkg/a2a/sse.go:78-99 | a field line assigns its value with one blank after the colon removed, a second blank kept and nothing removed where there is none |
| SseBroken.NoiseIgnored | pkg/a2a/sse.go:72-99 | a comment, a line without a colon and a field of another name change nothing |
| SseBroken.FieldsAssigned | pkg/a2a/sse.go:87-99 | each of the four fields sets its own part of the event and no other, and data lines add up |
| StreamClient.StreamItems | pkg/a2a/sse.go:267-293 | the events of a request are its items numbered from one, up to a cancellation, and then the closing event |
| StreamClient.ServeStream | pkg/a2a/sse.go:230-294 | a refused request is answered by one error event, any other by a start event and its items |
| StreamClient.StreamedUntil | pkg/a2a/sse.go:267-293 | from any item on, the events are those of the items before the first cancellation, and a closing event follows exactly when there is none |
| StreamClient.IdsDistinct | pkg/a2a/sse.go:267-293 | no two items of an answer get the same event id |
| StreamClient.Answered | pkg/a2a/sse.go:267-293 | without cancellation the response is start, every item, done |
| StreamClient.Turn | pkg/a2a/protocol.go:336-394 | one turn of the client loop emits exactly the next chunk, if any, and otherwise stops |
| StreamClient.StreamInvocation | pkg/a2a/protocol.go:336-394 | the chunks emitted are those of the chunk function for every input, cancellation and transport error |
| StreamClient.ChunksNumbered | pkg/a2a/protocol.go:336-394 | in every run chunks are numbered without a gap, an error chunk repeats the number reached and is final, and nothing follows a final chunk |
| StreamClient.EmittedNever | pkg/a2a/protocol.go:336-394 | without cancellation there is one chunk per event up to the first final one, with its text and number, and when there is no final one the transport error if there was one |
| StreamClient.CancelledPrefix | pkg/a2a/protocol.go:336-394 | a cancelled run emits the beginning of what it would have emitted, stops where it was cancelled, and emits all of it when it never was |
| StreamClient.BrokenStream | pkg/a2a/protocol.go:336-394 | an answer cut at any character and broken before a final event becomes one chunk per whole event and then the error as a final chunk with the number reached |
| StreamClient.FinalNames | pkg/a2a/protocol.go:336-394 | events named done and complete are final, and those named start, data, error or nothing are not |
| StreamClient.AnswerReceived | pkg/a2a/sse.go:38-294 | a reader receives all events of an answer, one by one |
| StreamClient.EndToEnd | pkg/a2a/protocol.go:336-394 | n streamed items become n + 2 chunks numbered 1 to n + 2, each item's text in its place and only the last chunk final |
| StreamClient.RefusedReceived | pkg/a2a/protocol.go:336-394 | a refused request reaches the caller as one chunk that is neither an error nor final |
| Graph.FindSound | pkg/agent/agent.go:452-481 | an agent the search returns has the name and lies below by at least one link |
| Graph.FindExplores | pkg/agent/agent.go:452-481 | a failed search has visited all children of everything it newly visited, and none of them has the name, although branches share the visited map |
| Graph.FindComplete | pkg/agent/agent.go:452-481 | on any graph, cycles included, the search fails only when no agent below has the name, and what it returns is such an agent |
| Graph.DirectChildFirst | pkg/agent/agent.go:452-481 | a direct sub-agent with the name is found before any deeper one, and of several the first |
| Graph.FirstBranchWins | pkg/agent/agent.go:471-478 | without such a sub-agent the result lies below the first one that has the name below it, if that branch does not lead back |
| Hierarchy.AttachConsistent | pkg/agent/agent.go:381-411 | adding a parentless agent keeps parents and sub-agent lists in agreement |
| Hierarchy.DetachConsistent | pkg/agent/agent.go:415-448 | removing a sub-agent keeps parents and sub-agent lists in agreement |
| Hierarchy.StepConsistent | pkg/agent/agent.go:381-448 | every call, failed ones included, keeps the invariant |
| Hierarchy.RunConsistent | pkg/agent/agent.go:381-448 | after every run of calls an agent is listed under p exactly when its parent is p, and nobody is listed twice |
| Hierarchy.RemoveUndoesAdd | pkg/agent/agent.go:381-448 | a failed add changes nothing, and removing what was added restores the hierarchy |
| Hierarchy.AddIff | pkg/agent/agent.go:381-411 | an add succeeds if and only if there is a child and it has no parent, and then gives it the parent, puts it at the end of the list and leaves every other parent and list as it was |
| Hierarchy.RemoveIff | pkg/agent/agent.go:415-448 | a remove succeeds if and only if the child has this parent, and then clears it, keeps the order of the remaining sub-agents and leaves everything else as it was |
| Hierarchy.AttachAcyclic | pkg/agent/agent.go:381-411 | adding a child keeps the hierarchy acyclic if and only if the child is neither the receiver nor above it |
| Hierarchy.DetachAcyclic | pkg/agent/agent.go:415-448 | removing never creates a cycle |
| Hierarchy.ChainEnd | pkg/agent/agent.go:517-588 | on every hierarchy the walk ends at a parentless agent or at one it has met before |
| Hierarchy.ChainToRoot | pkg/agent/agent.go:517-588 | in an acyclic hierarchy every step of the walk is a parent link, no agent repeats, and it ends at the only parentless ancestor |
| Hierarchy.TopUnique | pkg/agent/agent.go:517-538 | an agent has at most one parentless ancestor, at one distance |
| Hierarchy.DepthOfChild | pkg/agent/agent.go:565-588 | a child is one deeper than its parent and has the same root |
| BaseAgents.BaseAgent.SetSubAgents | pkg/agent/agent.go:381-448 | writing a sub-agent list changes that list in the hierarchy and nothing else |
| BaseAgents.BaseAgent.SetParent | pkg/agent/agent.go:381-448 | writing a parent changes that parent in the hierarchy and nothing else |
| BaseAgents.BaseAgent.Rewire | pkg/agent/agent.go:381-448 | writing one list and one parent changes the whole hierarchy in those two places only |
| BaseAgents.BaseAgent.AddSubAgent | pkg/agent/agent.go:381-411 | the objects afterwards form the hierarchy the add function gives, and success is reported exactly when it succeeds |
| BaseAgents.BaseAgent.Parent | pkg/agent/agent.go:362-366 | returns the parent recorded in the hierarchy |
| BaseAgents.BaseAgent.PlaceOf | pkg/agent/agent.go:428-436 | finds the first sub-agent with the id, or reports that there is none |
| BaseAgents.BaseAgent.RemoveSubAgent | pkg/agent/agent.go:415-448 | the objects afterwards form the hierarchy the remove function gives, and success is reported exactly when the child was listed |
| BaseAgents.BaseAgent.ChildNamed | pkg/agent/agent.go:464-469 | the first direct sub-agent with the name |
| BaseAgents.BaseAgent.FindFrom | pkg/agent/agent.go:452-481 | the search over objects finds and visits what the search over the graph does |
| BaseAgents.BaseAgent.FindInSubAgents | pkg/agent/agent.go:471-478 | the loop over sub-agents with the shared visited map does what the graph search does |
| BaseAgents.BaseAgent.FindAgent | pkg/agent/agent.go:452-481 | a found agent has the name and lies below, and a failure means nobody below has the name |
| BaseAgents.BaseAgent.GetRoot | pkg/agent/agent.go:517-538 | returns the last agent of the walk, on cyclic hierarchies too |
| BaseAgents.BaseAgent.GetPath | pkg/agent/agent.go:542-561 | returns the walk from the root down to the agent |
| BaseAgents.BaseAgent.GetDepth | pkg/agent/agent.go:565-588 | returns the number of steps of the walk |
| BaseAgents.WalksAgree | pkg/agent/agent.go:517-588 | on every hierarchy the path has depth + 1 agents, starts at what the root query returns and ends at the agent |
| DagStages.BuildCovers | pkg/agent/agent.go:678-706 | the pass creates exactly one task for every agent it newly visits |
| DagStages.PlanCoversReachable | pkg/agent/agent.go:674-733 | for any finite graph there is exactly one task for each agent reachable from the root and none for others |
| DagStages.BuildNoGap | pkg/agent/agent.go:678-706 | the pass uses every stage number from its own to the deepest |
| DagStages.PlanStages | pkg/agent/agent.go:674-733 | stage 0 holds the root's task only and stage numbers have no gap |
| DagStages.TasksAtSplit | pkg/agent/agent.go:720-730 | the tasks of a stage are those of the first part of the plan and then those of the rest, so their order is that of creation |
| DagStages.TasksAtOne | pkg/agent/agent.go:720-730 | a task is in its own stage and in no other |
| DagStages.AgentDAG.BuildRecursive | pkg/agent/agent.go:678-706 | the visited set and the stage map become those of the recursive function |
| DagStages.AgentDAG.MaxDepth | pkg/agent/agent.go:713-718 | the largest stage number, in any order of iteration |
| DagStages.AgentDAG.EmitStages | pkg/agent/agent.go:720-730 | one stage per number, deepest first, with its tasks in creation order |
| DagStages.AgentDAG.BuildStages | pkg/agent/agent.go:674-733 | the stages run from the deepest used number down to 0 without a gap and hold the tasks of the plan |
| DagOrder.PlanDepsFirst | pkg/agent/agent.go:678-706 | tasks are created after all their dependencies' tasks if and only if no cycle is reachable |
| DagOrder.BuildLeftmost | pkg/agent/agent.go:678-706 | without cycles a task's stage is the length of the leftmost path to its agent |
| DagOrder.LeftmostUnique | pkg/agent/agent.go:678-706 | leftmost paths to the same agent have the same length |
| DagOrder.StageOrderIff | pkg/agent/agent.go:678-730 | every dependency is in a strictly earlier stage if and only if no cycle is reachable and every leftmost path is a longest path |
| DagOrder.SinglePathsOrdered | pkg/agent/agent.go:678-730 | when each agent is reached by a single path, stages are in order |
| DagOrder.SharedDependencyTooLate | pkg/agent/agent.go:678-730 | an acyclic graph of three agents on which a dependency shares the stage of its dependent |
| InvocationContexts.HopRoundTrip | pkg/agent/invocation_context.go:264-336 | a move to another node fails exactly when the current or the root agent is unknown there, and else arrives with equal agents, history, limit, partition, node, metadata, task and instruction and with exactly the context keys without the internal prefix; a second move changes nothing more |
| InvocationContexts.InjectedStays | pkg/agent/autoflow.go:128-140 | what is put into an agent's input for a transfer is there under its keys and never leaves the node |
| InvocationContexts.BudgetAcrossHops | pkg/agent/invocation_context.go:113-336 | however transfers and moves alternate, history only grows and all nodes together stay within the limit |
| InvocationContexts.TransferRecorded | pkg/agent/invocation_context.go:113-147 | a transfer succeeds exactly while the history is shorter than the limit, appends one record of who was current, who takes over, why and where, moves there and changes nothing else |
| InvocationContexts.TransferChained | pkg/agent/invocation_context.go:113-164 | a transfer extends the chain of truthful records and moves the current agent and partition along |
| InvocationContexts.RunChained | pkg/agent/invocation_context.go:113-336 | the chain holds after every run of transfers and moves |
| InvocationContexts.CountCrossed | pkg/agent/invocation_context.go:203-229 | the cross-partition count is positive exactly when some transfer crossed partitions |
| InvocationContexts.CountPlaces | pkg/agent/invocation_context.go:217-229 | the cross-partition count is the number of places in the history that hold a remote transfer |
| InvocationContexts.InvocationContext.TransferTo | pkg/agent/invocation_context.go:113-147 | the context becomes the transferred one, or stays when the limit is reached |
| InvocationContexts.InvocationContext.GetTransferPath | pkg/agent/invocation_context.go:174-188 | the root's name and then the name of every transfer's target |
| InvocationContexts.InvocationContext.HasTransferredAcrossPartitions | pkg/agent/invocation_context.go:203-214 | true exactly when some recorded transfer is remote |
| InvocationContexts.InvocationContext.GetPartitionTransferCount | pkg/agent/invocation_context.go:217-229 | the number of remote transfers recorded |
| InvocationContexts.InvocationContext.Clone | pkg/agent/invocation_context.go:363-407 | a separate object that is equal field by field, except that an absent context map becomes an empty one |
| AutoFlows.FirstSibling | pkg/agent/autoflow.go:333-357 | finds another agent with the name in the list, or there is none |
| AutoFlows.FirstSiblingAt | pkg/agent/autoflow.go:333-357 | of several siblings with the name the first one other than the agent itself is taken |
| AutoFlows.ScopeResolved | pkg/agent/autoflow.go:286-406 | for every scope the lookup returns an agent that the scope allows and that has the name, and fails only when there is none |
| AutoFlows.TransferIff | pkg/agent/autoflow.go:142-212 | an answer leads to a transfer exactly when transfers are on, it asks for a named target, budget is left and an agent in scope has the name |
| AutoFlows.RequestForms | pkg/agent/autoflow.go:155-173 | an answer asks for a transfer by the flag or by a tool call of the right name, whatever else its metadata holds, and in no other way |
| AutoFlows.TargetForms | pkg/agent/autoflow.go:176-188 | target and reason are the words under their keys, and empty when absent or of another type |
| AutoFlows.Budget | pkg/agent/autoflow.go:128-243 | every run ends after at most max(limit, 0) + 1 agent executions, one per transfer and the first |
| AutoFlows.HandleFollows | pkg/agent/autoflow.go:176-243 | a transfer appends one truthful record from the current agent to an agent in its scope and moves there, within the limit |
| AutoFlows.ExecTrail | pkg/agent/autoflow.go:128-283 | every run is a trail of such transfers from its first context to its last, with one agent run in each context |
| AutoFlows.StepSafe | pkg/agent/autoflow.go:215-243 | one such transfer keeps the chain of records and its scope |
| AutoFlows.Safety | pkg/agent/autoflow.go:107-283 | over every run the records chain from the start agent to the current one and each target is in scope of its source |
| AutoFlows.LabelsRecorded | pkg/agent/autoflow.go:236-240 | over every run, each local or remote label agrees with the recorded kind of its transfer |
| AutoFlows.Reported | pkg/agent/autoflow.go:273-282 | a result carries transfer metadata exactly when a transfer happened, and then the path, the number of transfers and whether partitions were crossed are those of the final context |
| AutoFlows.ResultOf | pkg/agent/autoflow.go:128-283 | over every run the reply of the last agent that ran decides the result: it is that reply's output exactly when the agent answered and asked for no transfer, and an error in every other case |
| AutoFlows.RanTargets | pkg/agent/autoflow.go:128-283 | the agents that ran are the one the run was entered with and then the targets of the transfers, in order |
| AutoFlows.FollowedIff | pkg/agent/autoflow.go:438-450 | when a run is entered with any agent, its records name the agents that ran before and after each transfer, in scope of each other, if and only if that agent was the current one or nothing is transferred |
| AutoFlows.RemoteMisrecorded | pkg/agent/autoflow.go:438-450 | a run entered with another agent whose record names an agent that did not run, with a target out of scope of the one that did |
| AutoFlows.EntriesUncounted | pkg/agent/autoflow.go:438-450 | however many agents are run in one context, their transfers together stay within the limit, and each entry runs one agent more than was transferred |
| AutoFlows.Orphaned | pkg/agent/autoflow.go:286-287 | without an invocation, running an agent fails on the missing context exactly when it asks for a named target |
| AutoFlows.StartState | pkg/agent/autoflow.go:107-121 | an invocation starts at the given agent with an empty history, the configured limit, the input, the node and the root of the hierarchy |
| AutoFlows.AutoFlow.Execute | pkg/agent/autoflow.go:107-125 | result, context and agents run are those of the run function from the start state |
| AutoFlows.AutoFlow.ExecuteRemote | pkg/agent/autoflow.go:438-450 | an agent is run in the context there is, as the run function does from there, or without a context |
| AutoFlows.AutoFlow.ExecuteWithTransfer | pkg/agent/autoflow.go:128-152 | running any agent in any context does what the run function does from there |
| AutoFlows.AutoFlow.React | pkg/agent/autoflow.go:142-152 | an answer is passed on or followed as the handling function says |
| AutoFlows.AutoFlow.HandleTransferRequest | pkg/agent/autoflow.go:176-212 | a request without a target or without an agent in scope is an error and changes nothing, any other is followed |
| AutoFlows.AutoFlow.ExecuteTransfer | pkg/agent/autoflow.go:215-283 | a recorded transfer runs the target and reports path, count and crossing of the final context |
| AutoFlowBounds.RunTrace | pkg/agent/autoflow.go:107-283 | every run is a chain of in-scope transfers whose agents are the ones that ran |
| AutoFlowBounds.PathIff | pkg/agent/invocation_context.go:173-188 | over every run, the transfer path names the agents that ran if and only if the root of the hierarchy has the name of the start agent |
| AutoFlowBounds.PathFromBelow | pkg/agent/invocation_context.go:173-188 | a run started below the root whose reported path names the root twice and the start agent not at all |
| AutoFlowBounds.DownwardRun | pkg/agent/autoflow.go:360-390 | with sub-agent or descendant scope every agent is strictly deeper than those before, none runs twice, and transfers are at most the height below the start |
| AutoFlowBounds.UpwardRun | pkg/agent/autoflow.go:314-330 | with parent scope every transfer goes up one level, so there are at most as many as the start is deep |
| AutoFlowBounds.SidewaysRun | pkg/agent/autoflow.go:333-357 | with sibling scope every agent that runs has the parent of the start |
| AutoFlowBounds.AllScopeExcludesRoot | pkg/agent/autoflow.go:393-406 | the widest scope allows exactly the agents of the hierarchy other than its root |
| Archive.DeletedRows | cmd/transition_archive_prune/main.go:305-328 | a prune transaction removes the job's row and its rows in all three other tables, and keeps every row of every other job unchanged |
| Archive.DeletedCounts | cmd/transition_archive_prune/main.go:305-328 | in each table as many rows disappear as belonged to the job |
| Archive.EvolveGrows | pkg/scheduler/transition_store_postgres.go:208-245 | while transitions are only inserted, whatever a job had it keeps |
| Archive.EvolveQuiet | pkg/scheduler/transition_store_postgres.go:208-245 | while nobody inserts a transition for a job, its transitions stay the same |
| Archive.Store.Tick | cmd/transition_archive_export/main.go:312-358 | each statement of a tool finds what the other writers left |
| Archive.Store.Idle | cmd/transition_archive_prune/main.go:151-187 | between export and prune the other writers go on |
| Archive.Sanitize | cmd/transition_archive_export/main.go:468-474 | a bundle name is never empty and holds only letters, digits, dot, underscore and dash |
| Archive.SanitizeSafe | cmd/transition_archive_export/main.go:468-474 | a non-empty name of such characters is kept, so such names never collide |
| Archive.SafeCodes | cmd/transition_archive_export/main.go:468-474 | the characters kept are exactly the ASCII letters and digits, dot, underscore and dash |
| Archive.SanitizeRun | cmd/transition_archive_export/main.go:468-474 | a whole run of other characters becomes one underscore |
| Archive.SanitizeTrims | cmd/transition_archive_export/main.go:468-474 | surrounding blanks do not matter, and a blank id becomes a fixed name |
| Archive.PathInjective | cmd/transition_archive_export/main.go:290-292 | two jobs share a path exactly when their sanitized names are equal |
| Archive.NamesCollide | cmd/transition_archive_export/main.go:468-474 | two different job ids with the same path |
| ArchiveExport.LoadBundle | cmd/transition_archive_export/main.go:312-358 | the bundle is what the four queries find one after the other, and a missing job ends it after the first |
| ArchiveExport.LoadedKept | cmd/transition_archive_export/main.go:312-358 | a bundle holds only transitions the job still has afterwards, although its queries are not one snapshot |
| ArchiveExport.VerifyManifest | cmd/transition_archive_export/main.go:492-540 | verification succeeds exactly when every entry's file has its checksum, schema, job, state, row counts and last sequence, and then counts all entries |
| ArchiveExport.VerifiedDistinct | cmd/transition_archive_export/main.go:492-540 | entries of different jobs that verify have different paths, each with a bundle of its own job |
| ArchiveExport.EntryDetermined | cmd/transition_archive_export/main.go:492-540 | a file verifies for one entry only, so no field of an entry can be off |
| ArchiveExport.TamperDetected | cmd/transition_archive_export/main.go:492-540 | replacing the file of a verified entry by one of another checksum, or removing it, makes verification fail |
| ArchiveExport.ExportJobBundle | cmd/transition_archive_export/main.go:276-310 | a job's bundle is loaded, written under its path and described by its entry, or the job is missing |
| ArchiveExport.ExportStep | cmd/transition_archive_export/main.go:194-210 | exporting a job extends files, entries and bundles in step with the database |
| ArchiveExport.ExportAll | cmd/transition_archive_export/main.go:194-210 | the export succeeds exactly when every listed job is present at its turn, with one bundle, file and entry per job |
| ArchiveExport.LastWritten | cmd/transition_archive_export/main.go:290-300 | the last bundle written under a path is the one in the file |
| ArchiveExport.VerifiedIff | cmd/transition_archive_export/main.go:181-217 | an export verifies if and only if no two of its jobs share a sanitized name and no job changed state since it was listed |
| ArchiveExport.StatesRead | cmd/transition_archive_export/main.go:312-358 | the exported states are the listed ones exactly when every job is read in the state it was listed in |
| ArchiveExport.ExportTool | cmd/transition_archive_export/main.go:181-217 | a dry run writes nothing, and any other run gives its manifest exactly when all jobs are present and, if asked for, all entries verify |
| ArchivePrune.ManifestAccepted | cmd/transition_archive_prune/main.go:211-222 | prune accepts the manifest of an export exactly when it was verified and no dry run |
| ArchivePrune.ManifestRefused | cmd/transition_archive_prune/main.go:211-222 | an accepted manifest is refused as soon as any one of its five conditions fails |
| ArchivePrune.Thresholds | cmd/transition_archive_prune/main.go:224-345 | the terminal states are exactly the three named ones, and a job last updated exactly the retention period ago is not cold while an older one is, and cold jobs stay cold |
| ArchivePrune.DriftNoticed | cmd/transition_archive_prune/main.go:224-282 | a live job is eligible for one state, last sequence and row count per table only, so any drift from the entry is noticed |
| ArchivePrune.CountedIsArchived | cmd/transition_archive_prune/main.go:224-282 | the transitions an eligible job had at the count are exactly the archived ones |
| ArchivePrune.NothingLostIff | cmd/transition_archive_prune/main.go:224-328 | the deleted transitions are all archived if and only if none was added after the count |
| ArchivePrune.NothingLost | cmd/transition_archive_prune/main.go:224-328 | when nobody adds a transition between count and delete, exactly the archived ones are deleted |
| ArchivePrune.UntouchedEligible | cmd/transition_archive_prune/main.go:224-282 | the entry made for a job nobody touches stays eligible, whatever happens to other jobs |
| ArchivePrune.LoadLiveSnapshot | cmd/transition_archive_prune/main.go:284-303 | the snapshot is what the four queries find one after the other |
| ArchivePrune.ExecutePrune | cmd/transition_archive_prune/main.go:305-328 | all rows of the job are deleted in one step and counted |
| ArchivePrune.DeleteLossless | cmd/transition_archive_prune/main.go:224-328 | deleting an eligible job removes exactly what was archived of it and keeps every other job's transitions |
| ArchivePrune.DeletionEffect | cmd/transition_archive_prune/main.go:305-328 | after a deletion the four tables hold exactly the rows of other jobs, and the reported counts are the rows that disappeared |
| ArchivePrune.TurnClears | cmd/transition_archive_prune/main.go:151-328 | in every run a turn that deletes leaves no row of its job in any table and reports what disappeared, and any other turn changes no row itself |
| ArchivePrune.EligibleCounted | cmd/transition_archive_prune/main.go:151-187 | after k turns k entries are counted as checked, and as eligible those that were so at their turn, in a dry run too |
| ArchivePrune.PruneSafe | cmd/transition_archive_prune/main.go:151-187 | over every run, each deletion was of an eligible entry and lossless with respect to the database the run began with, counters agree with the deletions, a dry run deletes nothing and any other run every job it finds eligible |
| ArchivePrune.OthersPruned | cmd/transition_archive_prune/main.go:151-187 | pruning other entries leaves an untouched job's rows as they were |
| ArchivePrune.UntouchedPruned | cmd/transition_archive_prune/main.go:151-187 | a job that is eligible when the run starts and untouched until its own turn has read it is pruned, whatever happens to the entries before it |
| ArchivePrune.PruneEntry | cmd/transition_archive_prune/main.go:164-187 | one turn of the decision loop, with its new database, counters and deletion |
| ArchivePrune.PruneEntries | cmd/transition_archive_prune/main.go:151-187 | the loop is a run over the first entries in order |
| ArchivePrune.PruneTool | cmd/transition_archive_prune/main.go:120-187 | a rejected manifest changes nothing, an accepted one is run as far as the batch limit |
| ArchiveEndToEnd.AllMatch | cmd/transition_archive_prune/main.go:224-282 | every deleted job's bundle file records the terminal state, last sequence and row counts the job had |
| ArchiveEndToEnd.AllCovered | cmd/transition_archive_prune/main.go:224-328 | a deletion removes exactly the transitions in its bundle file if they were only added to from the export's read to the count and none was added from there to the delete |
| ArchiveEndToEnd.ExportAccepted | cmd/transition_archive_export/main.go:181-217 | a verified export is accepted exactly when every job is present, names are distinct and each job is read in the state it was listed in |
| ArchiveEndToEnd.CertainPruned | cmd/transition_archive_prune/main.go:151-282 | a job listed as it was and untouched from the export to the end of the run is pruned |
| ArchiveEndToEnd.RunLossless | cmd/transition_archive_prune/main.go:151-328 | over every run each deletion was of an eligible entry and lossless |
| ArchiveEndToEnd.RunPrunes | cmd/transition_archive_prune/main.go:151-282 | every job a run reaches that was listed as it was and is untouched is pruned |
| ArchiveEndToEnd.RunCovered | cmd/transition_archive_prune/main.go:151-328 | a prune run of a verified manifest deletes only what the files hold, and all untouched jobs it reaches |
| ArchiveEndToEnd.ArchiveThenPrune | cmd/transition_archive_prune/main.go:151-328 | export, any wait and prune together: accepted exactly under those conditions, no archived transition lost, deleted jobs match their files, every untouched job within the batch limit pruned |
| ArchiveEndToEnd.LateTransitionLost | cmd/transition_archive_prune/main.go:224-328 | a run of export, verification and prune that deletes a transition, inserted between count and delete, that is in no bundle file and no longer in the database |
| Mailbox.DoConserves | pkg/actor/actor.go:72-151 | every step keeps accepted messages equal to those processed, in hand and queued, in order, and the mailbox within 100 |
| Mailbox.RunConserves | pkg/actor/actor.go:72-151 | this holds over every interleaving of sends, receives, returns, recovered panics and stops |
| Mailbox.ExitedIsFinal | pkg/actor/actor.go:93-132 | after the loop has exited nothing is ever processed |
| Mailbox.NothingAfterStop | pkg/actor/actor.go:72-83 | after the stop call that set the flag returns, no message is handled |
| Mailbox.NoSendAfterStop | pkg/actor/actor.go:136-151 | once the flag is set no further send begins, in any run, so only those on their way can still be accepted |
| Mailbox.StopCanReturn | pkg/actor/actor.go:72-132 | a cancelled stop can return from every state within three steps, whatever is queued |
| Mailbox.LaterStopIsNoBarrier | pkg/actor/actor.go:72-83 | after any other stop call processing can go on if and only if the loop runs and a message is in hand, queued or on its way |
| Mailbox.SecondStopRace | pkg/actor/actor.go:72-83 | a run in which a second stop returns before a message is handled |
| RestartWindow.AnchoredInside | pkg/actor/supervisor.go:109-133 | inside an interval that holds the anchor there are no more restarts than the window has left |
| RestartWindow.RestartRate | pkg/actor/supervisor.go:109-133 | any interval no longer than the window sees at most 2 * max(limit, 1) restarts |
| RestartWindow.RestartsPerWindow | pkg/actor/supervisor.go:109-133 | one anchored window sees at most max(limit, 1) restarts |
| RestartWindow.AnchorStays | pkg/actor/supervisor.go:109-133 | the anchor moves only when a window ends, to a failure that was restarted; refused failures leave it |
| RestartWindow.RefusedOnlyAfterLimit | pkg/actor/supervisor.go:109-133 | a failure is refused only when a window that holds it has already seen as many restarts as the limit |
| RestartWindow.RateReached | pkg/actor/supervisor.go:109-133 | twice the limit is reached by two bursts around a window's end |
| Supervisors.ApplySound | pkg/actor/supervisor.go:208-318 | every safe operation keeps each live process registered at its own address |
| Supervisors.RestartIff | pkg/actor/supervisor.go:208-249 | a restart leaves at most one live process per address if and only if the registered one is stopped or tracked |
| Supervisors.RestartReplaces | pkg/actor/supervisor.go:208-249 | a safe restart makes the new process the only live one there, tracked and registered, and leaves other addresses alone |
| Supervisors.StopsWhatItSays | pkg/actor/supervisor.go:279-290 | stopping a child stops its tracked process and ends supervision, other addresses are untouched, and a shutdown leaves nothing alive and every address free |
| Supervisors.SpawnIff | pkg/actor/system.go:33-54 | a spawn at a taken address changes nothing, and at a free one registers a new live process and changes nothing else |
| Supervisors.ChildSupervised | pkg/actor/supervisor.go:252-276 | a spawned child is live, registered, tracked and configured, and a restart replaces its process |
| Supervisors.RegistrationOnly | pkg/actor/supervisor.go:294-318 | adding and removing a child touch supervision only, and after removal a restart does nothing |
| Supervisors.ApplyTracked | pkg/actor/supervisor.go:208-318 | when supervised addresses are run by the supervisor only, it tracks what is registered and restarts are safe |
| Supervisors.RunOneLive | pkg/actor/supervisor.go:208-318 | at every moment of every such run each address has at most one live process |
| Supervisors.RegisterThenRestart | pkg/actor/supervisor.go:294-307 | a directly spawned process that is registered and restarted leaves two live ones |
| Supervisors.System.Spawn | pkg/actor/system.go:33-54 | a taken address is refused and nothing changes, a free one gets a new process |
| Supervisors.System.StopProcess | pkg/actor/actor.go:72-83 | the process is stopped and no other |
| Supervisors.System.Stop | pkg/actor/system.go:97-114 | the registry is emptied and every process in it is stopped |
| Supervisors.Supervisor.SpawnChild | pkg/actor/supervisor.go:252-276 | a spawned child is registered, configured and tracked, and a taken address changes nothing |
| Supervisors.Supervisor.AddChild | pkg/actor/supervisor.go:294-307 | only the configuration is added |
| Supervisors.Supervisor.RemoveChild | pkg/actor/supervisor.go:311-318 | supervision ends and no process is stopped |
| Supervisors.Supervisor.StopChild | pkg/actor/supervisor.go:279-290 | supervision ends and the tracked process is stopped |
| Supervisors.Supervisor.RestartChild | pkg/actor/supervisor.go:208-249 | a configured child gets a new tracked process after its old one is stopped, any other address is left alone |
| Supervisors.Supervisor.HandleFailure | pkg/actor/supervisor.go:109-133 | the limiter advances, and the named child is restarted exactly when it admits the failure |
| Template.KeyAtIff | pkg/agent/template.go:12-12 | a key is read at a place if and only if the text there starts with a placeholder of dotted words |
| Template.WordCodes | pkg/agent/template.go:12-12 | the characters of a key are exactly the ASCII letters, digits and underscore |
| Template.ReplaceSegmented | pkg/agent/template.go:24-104 | however a text is cut into gaps and placeholders, the gaps stay, placeholders are replaced in order, inserted text is never scanned, and the keys met are those of the cut |
| Template.Segmentation | pkg/agent/template.go:12-52 | every text can be cut so |
| Template.NoKeysNoChange | pkg/agent/template.go:24-104 | no keys are found exactly when there is no placeholder, and then the text stays |
| Template.GetNestedValue | pkg/agent/template.go:56-74 | follows the parts of a dotted key down nested maps, and fails at the first missing field or non-map |
| Template.LookupIff | pkg/agent/template.go:56-74 | a dotted key has a value if and only if there is a chain of nested maps, one per part, that ends at it |
| Template.ReplaceNext | pkg/agent/template.go:31-43 | a placeholder becomes its value or stays with a warning, and any other character is copied |
| Template.InterpolateInstruction | pkg/agent/template.go:24-52 | text and warnings are those of the interpolation function, a nil context included |
| Template.InterpolateMeaning | pkg/agent/template.go:24-52 | the result is the gaps interleaved with the shown values of the keys that resolve and the unchanged placeholders of those that do not, and warnings list the latter in order |
| Template.MissingSplit | pkg/agent/template.go:31-43 | the warnings of a list of keys are those of its first part and then those of the rest, repetitions included |
| Template.UnresolvedStays | pkg/agent/template.go:24-52 | a text none of whose keys resolves stays as it is, and every key is warned about |
| Template.HasTemplatesIff | pkg/agent/template.go:92-94 | a template is reported exactly when some place holds a placeholder |
| Template.StrictIff | pkg/agent/template.go:77-89 | for any cut of the text, strict interpolation succeeds if and only if every key resolves and no opening brace in a gap or a value is completed to a placeholder by the pieces behind it, and then gives the gaps interleaved with the values; without a context it succeeds exactly on texts without keys |
| Template.StrictIsFinal | pkg/agent/template.go:77-89 | a strict success holds no placeholder, so interpolating it again in any context changes nothing |
| Template.PlainStrict | pkg/agent/template.go:77-89 | with all keys resolving and no opening brace outside placeholders or in values, strict interpolation gives the interleaved text |
| Template.ResolvedButRefused | pkg/agent/template.go:77-89 | a family of texts whose only key resolves and that strict interpolation refuses |

## Left out

- JSON encoding and decoding, on events, bundles and contexts: event data is the text before decoding, and a bundle or context is its own encoding. Encoding errors do not occur.
- SHA-256: any function from file contents to strings; no proof needs it to be injective.
- Multi-byte text: strings are sequences of characters and a stream is cut between characters.
- HTTP, flushing errors and the request parsing around the streaming handler.
- SQL text, the order and limit of the listing query; its condition is `Listable`, and the list of jobs is any list.
- Contents of task and sequence rows: as in the code, only their counts are compared before a delete.
- Flags, evidence directories, progress output and the wording of prune decisions.
- Wrapper agents: an agent is its base agent, so the descendant lookup's refusal of agents without one does not occur.
- FindAgentByID: the same search with ids in place of names.
- Locks: every locked method is atomic.
- BaseAgents.BaseAgent.AddSubAgent: excludes adding a parentless agent to itself, because that call waits for a lock it holds and never returns; the runs of Hierarchy.RunConsistent include it as a call without effect.
- Task ids, inputs and preferred locations of stage tasks.
- Agents that change the hierarchy or the invocation context while they run, and error texts of transfers.
- AutoFlows.AutoFlow.ExecuteRemote: leaves out the input and the serialized context it is given, because the code does not read the latter.
- Slices shared between a context and its serialized form; histories are values here.
- Restart strategies, child priorities and the request and reply messages of the supervisor; restarts on request are the same step as restarts after a failure but bypass the limiter.
- System.Request and System.Send: address lookups in front of the mailbox.
- Supervisors.RunOneLive: a stop is one step, as each method is atomic; the races inside a stop are in Mailbox.
- Telemetry, callbacks, event publication and logging.
- The scheduler, graph, human-in-the-loop, registry, remote and resilience packages, apart from the scheduler's insert-only transition append.
