# Verified models of the agent runtime's core

This Dafny project models the parts of the runtime whose correctness rests on more than one function,
and proves what they promise over every input, every run or every interleaving. `dafny verify
dfyconfig.toml` checks all of it.

Code that works step by step is modelled by classes and methods with loops. Each method is proved
against a function of the state before it, and the laws are proved about those functions, so they
hold of every composition of calls.

| files | component |
|---|---|
| `Options`, `Strings`, `Graphs`, `Workflows` | shared vocabulary: missing values, JavaScript strings, walks in graphs, workflow steps |
| `Kahn`, `KahnLevels`, `WorkflowBuilder`, `BuilderBarrier`, `BuilderOrder` | the fluent builder, its cycle check, what any chain of builder calls builds, and the order in which that is executed |
| `Durable`, `RunResults`, `Recovery` | checkpointed execution: what an attempt computes and how it ends, and recovery over any history of crashes, failures, pauses and resumes |
| `InteractionNet`, `NetScheduler`, `NetTermination`, `NetClaims`, `NetRules`, `SchedulerLoop` | graph rewriting with claimed pairs: what each rule makes of the net, strong normalisation with a bound on claims, single claims, what is stranded, and when the loop that drives it ends |
| `SynapseTokens`, `SynapseLexer`, `LexerInverts`, `SynapseGrammar`, `SynapseParser`, `SynapsePrinter`, `SynapseRoundTrip`, `SynapseForms`, `SynapseSource` | the Synapse language: lexer and parser, a printer for the documented grammar, and the round trips through tokens, through text, and from text to text |
| `AgentFile`, `AgentFileRoundTrip`, `AgentFileByHand` | agent files: the forge's printer against the runtime's reader, and what the reader makes of files written by hand |
| `Executor`, `ExecutorCalls`, `ExecutorLaws` | recursive execution with sub-tasks and escalations, over any answers of models and transports |
| `WorkerPool`, `PoolCounts`, `PoolLaws` | the elastic pool as atomic steps between awaits |
| `AgentRegistry`, `Escalation` | the indexed registry and the timed circuit breaker |
| `StateGraph`, `EmbeddingCache`, `BloomFilter` | static reachability against runs, the least-recently-used cache, the Bloom filter |

## Where the code falls short of its intent

Where a property holds only under a condition, it is proved to hold exactly then, and the failure is
shown at an input.

- A builder call with an empty list breaks the chain: later steps then depend on nothing before it
  (`BuilderBarrier.Barrier`), `exitSteps` then also lists earlier steps
  (`BuilderBarrier.ExitStepsAreFinals`), `entrySteps` also lists later ones
  (`BuilderOrder.EntryStepsAreFirst`), and later steps can be executed first
  (`BuilderOrder.BlocksRunInCallOrder`, `BuilderOrder.EmptyCallBreaksOrder`).
- A checkpoint left over from an earlier run of the same workflow can be taken up by a later resume
  (`Recovery.LeftoverCheckpointBreaksRecovery`): the latest checkpoint is the one with the highest
  step index, not the one saved last (core/storage/sqlite-store.ts:1247-1250).
- Rule keys are sorted, so the rules for a task and a constructor, duplicator or eraser are never
  selected (`NetScheduler.SelectIsSelected`). With an executor the task runs and its partner stays
  `reducing` for good; just these partners are stranded (`NetClaims.ClaimStrands`,
  `NetClaims.MixedWireStrands`, `NetClaims.RunStrands`). `runToCompletion`, given enough iterations, ends before they are used up
  exactly when nothing was stranded (`SchedulerLoop.Scheduler.RunToCompletion`).
- The rule for a duplicator and an eraser takes the node on the right of the pair's wire for the
  duplicator, whichever it is. With the duplicator on the left nothing is erased any further, although
  the eraser propagates (`NetRules.PropagatesUnlessMistaken`).
- A task is executed at most once in every run exactly when there is no executor or no idle task's
  principal port is wired to itself (`NetClaims.TasksRunOnce`); otherwise some claim executes one twice
  (`NetClaims.SelfWiredTaskRunsTwice`).
- A handler condition that is blank is accepted and trimmed to nothing. A program that was read can be
  printed and read again exactly when it has no such condition (`SynapseRoundTrip.ParseOfPrintOfParse`,
  `SynapseRoundTrip.BlankConditionIsLost`).
- In an agent file, an item in quotes loses them in a list on one line and keeps them in a list over
  several lines (`AgentFileByHand.BlockKeepsQuotes`).
- A target taken from a model's JSON need not be a string; resolving it then throws after the task was
  counted. The counters balance exactly when resolving throws at no call (`ExecutorLaws.Conservation`,
  `ExecutorLaws.ThrowingTargetIsLost`).
- An agent that a call below its own comes back to is idle for the rest of its own work
  (`ExecutorLaws.ParentStaysBusy`, `ExecutorLaws.ParentIsIdle`).
- Scaling up adds idle workers while tasks wait; only later dispatches and health checks use them.
  Just those steps leave a task waiting beside an idle worker (`PoolLaws.QuietIsKept`,
  `PoolLaws.ScalingLeavesTaskWaiting`).
- A state-graph run that uses up its iterations reports the node it would have executed next as its exit
  node, unless the last one it executed is an exit node or has nothing after it
  (`StateGraph.ExitIsLast`, `StateGraph.ExitNotExecuted`).

## Model

| member | source | states |
|---|---|---|
| `Workflows.DistinctIdsByCount` | core/durable.ts:289-293 | the in-degree table has as many keys as there are steps exactly when no two steps share an id |
| `Workflows.EdgesAreDependencies` | core/workflow-builder.ts:301-307 | the edges that Kahn's algorithm works on are just the listed dependencies |
| `Kahn.OrderIsExact` | core/workflow-builder.ts:310-328 | the queue loop dequeues every vertex exactly when every edge starts at a vertex and the graph has no cycle |
| `Kahn.DrainFinal` | core/durable.ts:310-320 | when the queue is empty, the dequeued vertices are in forward order, and a vertex is missing exactly when one of its predecessors is |
| `Kahn.ForwardCoverIsAcyclic` | core/workflow-builder.ts:326-328 | a forward order that covers all vertices rules out cycles |
| `Kahn.AddDependencies` | core/workflow-builder.ts:301-307 | the inner loop enters one edge for each listed dependency in both maps |
| `Kahn.ZeroDegrees` | core/workflow-builder.ts:311-313 | the initial queue is just the vertices that no edge enters, in table order |
| `Kahn.RelaxNeighbors` | core/workflow-builder.ts:319-323 | one pass over the neighbours has the effect on in-degrees and queue that the proof's relaxation step has |
| `Kahn.DrainQueue` | core/durable.ts:310-320 | the queue loop over the mutable maps dequeues what the specification of the loop dequeues |
| `WorkflowBuilder.StepIdInjective` | core/workflow-builder.ts:289-291 | step ids drawn from different counts differ |
| `WorkflowBuilder.DecimalInjective` | core/workflow-builder.ts:289-291 | numbers that print alike are equal |
| `WorkflowBuilder.DecimalIsNumber` | core/workflow-builder.ts:289-291 | a number is printed in the decimal digits that stand for it |
| `WorkflowBuilder.Builder.Sequential` | core/workflow-builder.ts:63-89 | the whole new builder state: a chain of steps, the first of which depends on the previous call's last steps |
| `WorkflowBuilder.Builder.Parallel` | core/workflow-builder.ts:96-121 | the whole new builder state: all steps depend on the previous call's last steps, and all are last steps |
| `WorkflowBuilder.Builder.Handoff` | core/workflow-builder.ts:127-153 | the whole new builder state: a chain whose steps keep the history |
| `WorkflowBuilder.Builder.Conditional` | core/workflow-builder.ts:160-186 | the whole new builder state: one step per branch, all with the router, none depending on another |
| `WorkflowBuilder.Builder.Aggregate` | core/workflow-builder.ts:192-212 | the whole new builder state: one step that depends on all last steps |
| `WorkflowBuilder.CallBuilds` | core/workflow-builder.ts:63-212 | every call adds a step for each task behind those there are, with the task's agent, text and metadata, the call's kind, group and router; a chain depends step on step, the others on what the call before ended with; a hand-off marks the metadata and keeps the rest |
| `WorkflowBuilder.CallEndsWith` | core/workflow-builder.ts:63-212 | the next call depends on all steps of the call, or on the last of a chain, and a parallel call registers its group |
| `WorkflowBuilder.Builder.Build` | core/workflow-builder.ts:218-259 | fails on no steps, on a missing dependency and on a cycle, in that order, and otherwise compiles with the entry and exit steps |
| `WorkflowBuilder.EntrySteps` | core/workflow-builder.ts:223-226 | the entry steps are those that list no dependency |
| `BuilderOrder.EntriesAreSources` | core/workflow-builder.ts:223-226 | for steps with different ids, the entry steps are just the queue that Kahn's algorithm starts with, in its order |
| `BuilderOrder.EntryStepsAreFirstLayers` | core/workflow-builder.ts:223-226 | after any chain of calls a step is an entry step exactly when it is in the first layer of a call that comes first or after an empty one |
| `BuilderOrder.EntryStepsAreFirst` | core/workflow-builder.ts:223-226 | all entry steps belong to the first call that added steps exactly when no empty call stands between two that did |
| `WorkflowBuilder.ExitSteps` | core/workflow-builder.ts:228-232 | the exit steps are those that no step lists |
| `WorkflowBuilder.FindMissing` | core/workflow-builder.ts:234-246 | finds a listed dependency that names no step whenever there is one, and otherwise says that all exist |
| `WorkflowBuilder.GatherSteps` | core/workflow-builder.ts:294-308 | the tables hold the ids, in-degrees and adjacency lists of all the steps' dependencies |
| `WorkflowBuilder.DetectCycles` | core/workflow-builder.ts:293-329 | does not throw exactly when ids are distinct, dependencies exist and no step depends on itself through others |
| `BuilderBarrier.Barrier` | core/workflow-builder.ts:63-212 | after any chain of calls, a step of a later call depends on a step of an earlier one, directly or through others, exactly when no call in between was given an empty list |
| `BuilderBarrier.RunIsValid` | core/workflow-builder.ts:218-259 | any chain of calls passes every check of building, so building throws exactly when no step was added |
| `KahnLevels.OrderRanked` | core/durable.ts:307-320 | because the queue is first in, first out, on a layered graph Kahn's algorithm settles on one order: by layer, and by number within a layer |
| `BuilderOrder.RunIsLayered` | core/workflow-builder.ts:63-212 | what any chain of builder calls builds is such a graph |
| `BuilderOrder.OrderIsByLayer` | core/durable.ts:283-323 | of two steps of different calls, the one of the earlier call is executed first exactly when its layer is no later |
| `BuilderOrder.BlocksRunInCallOrder` | core/durable.ts:283-323 | all steps of a call are executed before all of a later one exactly when its last layer is no later than the later call's first; so always if no empty call stands between |
| `BuilderOrder.EmptyCallBreaksOrder` | core/workflow-builder.ts:63-89 | after a sequence of two tasks, an empty call and a sequence of one task, the third step is executed before the second |
| `BuilderBarrier.ListedExactly` | core/workflow-builder.ts:228-232 | a step is listed as a dependency exactly when its chain goes on, or it is a last step of its call and the next call added a step |
| `BuilderBarrier.ExitStepsAreFinals` | core/workflow-builder.ts:228-232 | the exit steps are the last call's last steps, in order, exactly when no empty call follows one that added a step |
| `Durable.DependenciesPrecede` | core/durable.ts:187-194 | every dependency of a step of the order stands earlier in it, for any workflow, cyclic or broken ones included |
| `Durable.TopoOrderIsExact` | core/durable.ts:283-323 | the order never repeats a step, and is a permutation of the steps exactly when ids are distinct, dependencies exist and there is no cycle |
| `Durable.TopologicalSort` | core/durable.ts:283-323 | the second copy of Kahn's algorithm computes that order |
| `Durable.CollectSteps` | core/durable.ts:289-293 | the tables start with every id, in-degree zero, and the last step of each id |
| `Durable.CollectEdges` | core/durable.ts:295-303 | the tables agree with the edges of all steps |
| `Durable.FirstIds` | core/durable.ts:155-158 | the steps before the start index are counted as completed |
| `Durable.Store.SaveCheckpoint` | core/storage/sqlite-store.ts:1232-1245 | a checkpoint replaces the one with the same primary key |
| `Durable.Store.GetLatestCheckpoint` | core/storage/sqlite-store.ts:1247-1250 | returns a checkpoint of the workflow with the highest step index, if it has any |
| `Durable.DurableWorkflow.Run` | core/durable.ts:77-81 | the ending and the store are those of an attempt from the first step |
| `Durable.DurableWorkflow.Resume` | core/durable.ts:87-97 | the ending and the store are those of an attempt from the step after the latest checkpoint, with its state; nothing without one |
| `Durable.DurableWorkflow.Pause` | core/durable.ts:103-105 | the status becomes paused |
| `Durable.DurableWorkflow.Abort` | core/durable.ts:110-113 | the status becomes aborted, with the reason |
| `Durable.DurableWorkflow.SaveCheckpoint` | core/durable.ts:265-277 | saves the state under the workflow's id and the step index |
| `Durable.DurableWorkflow.ExecuteFrom` | core/durable.ts:144-263 | the loop, which tests dependencies, behaves as an attempt that never skips a step; crashes, pauses, aborts, refused approvals, failing steps and failing callbacks included |
| `Durable.DurableWorkflow.RunStep` | core/durable.ts:196-250 | one step: approval, execution, the checkpoint after it, the callback, and the checkpoint of a failure |
| `RunResults.StepsPassBy` | core/durable.ts:217-229 | steps that nothing disturbs leave one checkpoint each, in order, and every state between them has in each key the value of the last step that wrote it, a step's own key holding its whole result; the attempt goes on from the last of these states |
| `RunResults.CompletesWithResults` | core/durable.ts:160-262 | an attempt that nothing disturbs, from the first step or from the one after a checkpoint, completes with that state: each key has the value of the last result that has it, what the attempt started with where none has, and there are no other keys |
| `RunResults.PausesWhenRefused` | core/durable.ts:195-214 | a refused approval pauses before the step and saves the state reached under the index before it |
| `RunResults.FailsWithStep` | core/durable.ts:230-250 | a step that throws fails the attempt with the state before it, which is saved with the step and the message noted in it |
| `RunResults.FailsWithCallback` | core/durable.ts:223-250 | a callback that throws fails the attempt after the step was executed and saved; the state after the step is returned, and saved again with the failure noted, under the index before the step |
| `RunResults.StopsWhenAsked` | core/durable.ts:160-184 | a pause or abort asked for during a step takes effect before the next one and names it or the reason; after the last step the attempt completes all the same |
| `RunResults.DiesBetweenCheckpoints` | core/durable.ts:217-229 | a process that dies leaves just the checkpoints of the steps it had saved |
| `Recovery.UndisturbedRun` | core/durable.ts:160-262 | an undisturbed attempt completes with the state that the steps add up to, from any step on |
| `Recovery.AttemptKeepsSound` | core/durable.ts:160-250 | an attempt that starts with the state of an undisturbed run leaves only faithful latest checkpoints, however it is disturbed |
| `Recovery.KeepsCheckpoint` | core/durable.ts:265-277 | attempts never leave a workflow without a checkpoint once it has one |
| `Recovery.HistoriesRecover` | core/durable.ts:87-97 | over any history of runs and resumes, a call that completes returns the state of one undisturbed run but for the two failure keys, and once there is a checkpoint an undisturbed resume completes; the store must hold no checkpoint of the workflow at the start |
| `Recovery.LeftoverCheckpointBreaksRecovery` | core/durable.ts:77-81 | that condition is needed: over any checkpoint left by an earlier run, some run that dies at once completes on resume with a wrong state |
| `InteractionNet.InteractionNet.NextId` | core/interaction-net.ts:222-224 | draws the next number |
| `InteractionNet.InteractionNet.AddNode` | core/interaction-net.ts:227-230 | adds the node and empties the cache |
| `InteractionNet.InteractionNet.RemoveNode` | core/interaction-net.ts:233-247 | removes the node and every wire that touches it, and empties the cache |
| `InteractionNet.InteractionNet.Connect` | core/interaction-net.ts:267-276 | adds a wire with a new id and empties the cache |
| `InteractionNet.InteractionNet.RemoveWire` | core/interaction-net.ts:279-283 | removes the wire, and empties the cache if it was there |
| `InteractionNet.InteractionNet.GetConnectedNode` | core/interaction-net.ts:300-308 | finds the far end of the oldest wire at the port, if that node exists |
| `InteractionNet.InteractionNet.FindActivePairs` | core/interaction-net.ts:315-344 | returns the cache, rebuilt if empty; it omits no active pair |
| `InteractionNet.InteractionNet.ClaimPair` | core/interaction-net.ts:352-370 | claims both nodes exactly when the pair is cached and both are idle, and always drops the pair |
| `InteractionNet.InteractionNet.ApplyReduction` | core/interaction-net.ts:375-397 | removes and adds the nodes and wires named, leaves other wires of removed nodes dangling, and empties the cache |
| `InteractionNet.InteractionNet.IsNormalForm` | core/interaction-net.ts:402-404 | true exactly when no pair is active and the cache held nothing stale |
| `InteractionNet.ScanIsExact` | core/interaction-net.ts:315-344 | scanning finds each active pair, and nothing that is not one |
| `InteractionNet.RefreshedOk` | core/interaction-net.ts:315-344 | a refreshed cache that is empty means that no pair is active |
| `InteractionNet.ClaimedOk` | core/interaction-net.ts:352-370 | after a claim the cache still omits no active pair |
| `NetScheduler.SelectIsSelected` | core/net-scheduler.ts:273-317 | what each pair of kinds selects: keys are sorted, so three cases of the switch are dead and those pairs run their task instead |
| `NetTermination.ClaimDecreases` | core/net-scheduler.ts:273-311 | each claim strictly decreases, in lexicographic order, the principal wires between waiting non-erasers, the waiting non-erasers and the waiting erasers, although rules add nodes and active pairs |
| `NetTermination.ClaimSpends` | core/net-scheduler.ts:273-311 | each claim lowers a number: five for each of those wires, two for each of those non-erasers, one for each eraser |
| `NetTermination.StepDecreases` | core/net-scheduler.ts:208-264 | each step keeps the invariant and decreases a measure that extends those three places |
| `NetTermination.NoEndlessSchedule` | core/net-scheduler.ts:147-171 | strong normalisation: no schedule of claims, task endings, applications and collections goes on for ever |
| `NetClaims.RunKeepsClaimInv` | core/interaction-net.ts:352-370 | over every run each claimed node never becomes idle again |
| `NetClaims.ClaimedOnceOverRuns` | core/interaction-net.ts:352-370 | over every run no two claims share a node |
| `NetClaims.TasksRunOnce` | core/net-scheduler.ts:321-335 | no run executes a task twice exactly when there is no executor or no idle task's principal port is wired to itself |
| `NetClaims.SelfWiredTaskRunsTwice` | core/net-scheduler.ts:321-335 | in any net before its first claim, an idle task whose principal port is wired to itself can be claimed with itself, and is then executed twice |
| `NetClaims.StartAddsNoSelfWire` | core/net-scheduler.ts:507-643 | no rule wires a principal port to itself |
| `NetClaims.StartAddsNoTask` | core/net-scheduler.ts:507-643 | no rule that a pair selects adds a task, and one that a task takes part in adds nothing |
| `NetClaims.ClaimExecutes` | core/net-scheduler.ts:273-311 | a claim executes just those of its two nodes that are tasks, if there is an executor |
| `NetClaims.ClaimStrands` | core/net-scheduler.ts:301-308 | a claim leaves a node that nothing under way will settle or remove exactly when there is an executor and just one of its nodes is a task, and then it is the other |
| `NetClaims.MixedWireStrands` | core/net-scheduler.ts:301-308 | in any net before its first claim, an active wire between a task and another node can be claimed, and with an executor that strands the other node |
| `NetClaims.OtherStrandsNone` | core/net-scheduler.ts:222-258 | no other step strands a node or releases one |
| `NetClaims.RunStrands` | core/net-scheduler.ts:208-264 | over every run the stranded nodes are just those from before and the partners of tasks executed alone |
| `NetClaims.ClaimsAreBounded` | core/net-scheduler.ts:147-171 | a run from any state makes at most five claims for each principal wire between waiting non-erasers, two for each waiting non-eraser and one for each waiting eraser |
| `NetClaims.UnmixedStrandsNone` | core/net-scheduler.ts:301-308 | without an executor, or if the idle nodes are all tasks or none is, no step strands a node and this stays so |
| `NetClaims.StrandedForever` | core/net-scheduler.ts:301-308 | such a partner stays claimed through every later step |
| `NetRules.ReducesAtOnce` | core/net-scheduler.ts:208-264 | a pair without a task is claimed and its result applied without waiting for anything |
| `NetRules.Annihilates` | core/net-scheduler.ts:507-643 | two constructors or two duplicators are replaced by one wire between their first auxiliary ports and one between their second, two erasers by nothing; all other nodes and wires stay |
| `NetRules.Commutes` | core/net-scheduler.ts:533-565 | a constructor and a duplicator are replaced by two idle copies of each, with the old payloads and priorities; each new constructor has the first and the second new duplicator at its auxiliary ports, and each of these the first and the second new constructor at its principal and first auxiliary port |
| `NetRules.Erases` | core/net-scheduler.ts:569-608 | the pair goes, and if the eraser propagates, each idle node at an auxiliary port of the other gets a new idle, propagating eraser at its principal port; nothing else is new |
| `NetRules.PropagatesUnlessMistaken` | core/net-scheduler.ts:570-594 | an idle node at an auxiliary port is newly wired to an eraser exactly when the eraser of the pair propagates and no duplicator stands on the left of the pair's wire |
| `NetRules.TasksStart` | core/net-scheduler.ts:273-311 | with an executor, a pair with a task starts its tasks in order, both of two, and only then loses its wire; both nodes are reducing, claimed by the worker |
| `NetRules.NoExecutorFails` | core/net-scheduler.ts:652-654 | without an executor, both nodes of such a pair are completed at once with that error, and nothing else changes |
| `NetRules.FinishRecords` | core/net-scheduler.ts:660-697 | a task that ends is completed with its result or its error, is no longer waited for, and changes nothing else |
| `NetRules.CollectedExactly` | core/net-scheduler.ts:741-756 | a node may be collected exactly when it is completed or cancelled and no wire joins one of its three ports to an idle or active node |
| `NetRules.CollectTakes` | core/net-scheduler.ts:758-760 | collecting takes the node and the wires that touch it, and nothing else |
| `NetRules.OldestWireFound` | core/interaction-net.ts:300-308 | the node found at a port is at the far end of the oldest wire there |
| `NetRules.SetWireAppends` | core/interaction-net.ts:391-394 | a wire with a new id goes behind all others |
| `NetRules.PairPriority` | core/interaction-net.ts:336 | a pair has the priority of the more urgent of its nodes |
| `SchedulerLoop.SortPairs` | core/interaction-net.ts:347-349 | ready pairs are a permutation sorted by priority, and pairs of one priority keep their order |
| `SchedulerLoop.MovesKeep` | core/net-scheduler.ts:147-264 | through any moves of the scheduler no node is claimed twice, just the partners of tasks executed alone are stranded, and claims and wires stay within what the start allows |
| `SchedulerLoop.MovesUnmixed` | core/net-scheduler.ts:147-264 | through any moves nothing is stranded if no task can meet a node of another kind |
| `SchedulerLoop.MovesMixed` | core/net-scheduler.ts:147-264 | if all active pairs are of a task and another node, then with an executor they still are after any moves, or a node has been stranded |
| `SchedulerLoop.Scheduler.ReducePair` | core/net-scheduler.ts:208-264 | up to its first wait it claims the pair and computes its rule, or leaves all but the cache alone |
| `SchedulerLoop.Scheduler.Begin` | core/net-scheduler.ts:273-311 | the rule that the pair selects, with the ids it draws |
| `SchedulerLoop.Scheduler.ReduceConstructorEraser` | core/net-scheduler.ts:569-608 | removes both nodes and sends an eraser to each idle node at an auxiliary port, if the eraser propagates |
| `SchedulerLoop.Scheduler.FinishTask` | core/net-scheduler.ts:648-698 | a task that resolves or rejects is completed with its result or its error |
| `SchedulerLoop.Scheduler.ApplyPending` | core/net-scheduler.ts:222-228 | the result of a reduction is applied once its tasks are done |
| `SchedulerLoop.Scheduler.AwaitPending` | core/net-scheduler.ts:195-197 | all that is under way ends, in any order, by steps of the system alone |
| `SchedulerLoop.Scheduler.Gc` | core/net-scheduler.ts:741-768 | collects just the dead nodes that no idle or active node is wired to, with their wires |
| `SchedulerLoop.Scheduler.HeldByIdle` | core/net-scheduler.ts:748-756 | some idle or active node is wired to the node at one of its three ports |
| `SchedulerLoop.Scheduler.ReduceBatch` | core/net-scheduler.ts:195-205 | tries each pair of the batch in order, waits for all, and collects garbage just when the count reaches its threshold |
| `SchedulerLoop.Scheduler.OneIteration` | core/net-scheduler.ts:150-166 | one pass ends the loop only in normal form, and otherwise spends some of the budget unless a node is stranded |
| `SchedulerLoop.Scheduler.RunToCompletion` | core/net-scheduler.ts:147-171 | makes only moves of the system; stops early only with no active pair and no node reducing; with more iterations than a budget known at the start, it stops early exactly when no node is stranded; if at the start all active pairs, and some, are of a task and another node, it uses up all iterations |
| `SynapseLexer.Lexer.Tokenize` | dsl/lexer.ts:79-155 | the tokens are those of the specification, with an end of file; it throws exactly where that does, and ends on every input |
| `SynapseLexer.Lexer.NextToken` | dsl/lexer.ts:85-145 | one pass skips, makes one token or throws, and always consumes text |
| `SynapseLexer.Lexer.ReadToken` | dsl/lexer.ts:99-145 | the token that starts here, by its first characters |
| `SynapseLexer.Lexer.ReadStringToken` | dsl/lexer.ts:160-211 | a string with its escapes undone, or an error at the end of the text |
| `SynapseLexer.Lexer.ReadPromptBlock` | dsl/lexer.ts:218-272 | everything up to the brace that closes the block, normalised, or an error at the end of the text |
| `SynapseLexer.Lexer.ReadIdentifierOrKeyword` | dsl/lexer.ts:282-326 | a word absorbs hyphenated segments while the longer word is a keyword or looks like one, and gives back the rest |
| `SynapseLexer.Lexer.ReadComment` | dsl/lexer.ts:329-334 | skips to the end of the line |
| `SynapseLexer.Lexer.ReadNewline` | dsl/lexer.ts:337-373 | newlines and the blanks among them collapse into one token, or none after another newline or an opening brace |
| `SynapseLexer.Lexer.SkipSpacesAndTabs` | dsl/lexer.ts:378-388 | skips blanks |
| `LexerInverts.ReadStringEscape` | dsl/lexer.ts:160-211 | reading undoes escaping, for every string |
| `LexerInverts.ReadPromptText` | dsl/lexer.ts:218-272 | a text with balanced braces is read back through its closing brace |
| `LexerInverts.NormalisedText` | dsl/lexer.ts:255-264 | normalising undoes the newlines printed inside the braces, if every line is trimmed |
| `LexerInverts.ReadWordText` | dsl/lexer.ts:282-326 | a hyphenated word is read whole, also right before an arrow |
| `LexerInverts.LexUndoesLayout` | dsl/lexer.ts:79-373 | every good layout of a token list, with any blanks, blank lines and comments where they may stand, lexes to just those tokens |
| `LexerInverts.ForeignRefused` | dsl/lexer.ts:139-145 | a character that no token starts with is an error after any good layout, whatever follows |
| `SynapseParser.Parser.ParseList` | dsl/parser.ts:446-473 | the items of a list, commas being optional |
| `SynapseParser.Parser.ParsePromptBlock` | dsl/parser.ts:480-532 | the text of a prompt, from one token or put together from many |
| `SynapseParser.Parser.CollectPrompt` | dsl/parser.ts:491-520 | the token-by-token fallback |
| `SynapseParser.Parser.ParseAgent` | dsl/parser.ts:139-210 | an agent, or an error, as the grammar function says |
| `SynapseParser.Parser.ReadAgentItem` | dsl/parser.ts:156-205 | one entry of an agent's body; a property set again keeps its place |
| `SynapseParser.Parser.ParseHandler` | dsl/parser.ts:372-441 | a handler with its condition and actions, or an error |
| `SynapseParser.Parser.ReadCondition` | dsl/parser.ts:375-387 | the words before the brace, joined with spaces |
| `SynapseParser.Parser.ReadHandlerItem` | dsl/parser.ts:402-434 | one action of a handler |
| `SynapseParser.Parser.ParseWorkflow` | dsl/parser.ts:214-250 | a workflow, or an error |
| `SynapseParser.Parser.ReadWorkflowItem` | dsl/parser.ts:230-245 | one entry of a workflow's body |
| `SynapseParser.Parser.ParseStep` | dsl/parser.ts:252-311 | a step of a workflow, or an error |
| `SynapseParser.Parser.ReadStepItem` | dsl/parser.ts:269-304 | one entry of a step's body |
| `SynapseParser.Parser.ParsePipeline` | dsl/parser.ts:315-343 | a pipeline, or an error |
| `SynapseParser.Parser.ParsePipelineStage` | dsl/parser.ts:345-368 | a stage of a pipeline, or an error |
| `SynapseParser.Parser.ReadStageItem` | dsl/parser.ts:357-362 | one task of a stage |
| `SynapseParser.Parser.ParseProgram` | dsl/parser.ts:98-135 | the nodes of the whole token stream, or an error; each pass of each loop consumes a token, so it ends on every stream |
| `SynapsePrinter.ParseInvertsPrint` | dsl/parser.ts:65-85 | for every program with non-blank trimmed conditions and distinct property keys, the printed tokens parse to just that program |
| `SynapsePrinter.AgentReads` | dsl/parser.ts:139-210 | a printed agent is read back, with whatever follows it left over |
| `SynapsePrinter.HandlerReads` | dsl/parser.ts:372-441 | a printed handler is read back |
| `SynapsePrinter.ConditionReads` | dsl/parser.ts:375-387 | a condition printed as words or as one string is read back |
| `SynapsePrinter.ListReads` | dsl/parser.ts:446-473 | a printed list is read back |
| `SynapsePrinter.WorkflowReads` | dsl/parser.ts:214-250 | a printed workflow is read back |
| `SynapsePrinter.StepReads` | dsl/parser.ts:252-311 | a printed step is read back; an empty agent is left out and comes back as the default |
| `SynapsePrinter.PipelineReads` | dsl/parser.ts:315-343 | a printed pipeline is read back |
| `SynapseRoundTrip.ReadInvertsWrite` | dsl/parser.ts:98-135 | every good layout of a printed program, as source text, is lexed and parsed to just that program |
| `SynapseRoundTrip.WritableHasText` | dsl/lexer.ts:79-155 | every program whose names are words other than prompt and whose prompts are balanced and trimmed has such a layout |
| `SynapseRoundTrip.ParseOfPrintOfParse` | dsl/parser.ts:98-135 | whatever the parser returns for any token stream, printing and parsing it again gives the same exactly when no condition was blank |
| `SynapseRoundTrip.BlankConditionIsLost` | dsl/parser.ts:372-397 | a program of one agent with a condition of one space is parsed, and what is printed for it is refused |
| `SynapseRoundTrip.BlankProgramRefused` | dsl/parser.ts:372-397 | what is printed for a program with a blank condition is refused, wherever the condition is |
| `SynapseForms.DocumentedProperty` | dsl/lexer.ts:31-57 | each documented property, with any value, has a good layout, and every good layout of it reads back |
| `SynapseForms.AgentTextReads` | dsl/parser.ts:98-135 | an agent of a documented property is read as it is written: with any blanks between the words, on one line or several, with a comment and blank lines |
| `SynapseForms.UnknownItemRefused` | dsl/parser.ts:157-205 | an entry of an agent's body that starts with a word outside the documented ones is refused |
| `SynapseForms.UnknownWordRefused` | dsl/parser.ts:157-205 | so is the whole program, however it is laid out |
| `SynapseForms.LooseListReads` | dsl/parser.ts:446-473 | a list reads as its items with or without commas, on one line or over several |
| `SynapseForms.TextReads` | dsl/parser.ts:180-193 | any text reads as itself from a string, also one that is a word or a keyword, and any word without quotes |
| `SynapseForms.PropertyReads` | dsl/parser.ts:98-135 | an agent of one property reads back from every layout of every form of its value |
| `SynapseSource.NormalisedIsBalanced` | dsl/lexer.ts:255-264 | normalising a prompt keeps its braces balanced |
| `SynapseSource.LexedFits` | dsl/lexer.ts:79-155 | the tokens of any text are such as can be laid out as text again |
| `SynapseSource.PromptFromLexer` | dsl/parser.ts:480-490 | in lexed text a prompt is always one token: it is never put together from others |
| `SynapseSource.ReadIsWritable` | dsl/parser.ts:98-135 | whatever is read from source text can be written down |
| `SynapseSource.WriteInvertsRead` | dsl/parser.ts:98-135 | for any source text that is read: every good layout of the program reads back as it exactly when no condition was blank |
| `SynapseSource.ReadHasText` | dsl/lexer.ts:79-155 | and such a layout always exists |
| `AgentFile.GenerateAgentFile` | core/forge.ts:378-403 | the text of the file, line by line |
| `AgentFile.ParseSimpleYaml` | core/runtime.ts:1300-1352 | the loop over the lines reads what the line-by-line specification reads, lists over several lines included |
| `AgentFile.ParseAgentMetadata` | core/runtime.ts:1012-1075 | what is read from a file with frontmatter; nothing without |
| `AgentFileRoundTrip.ScalarReadsBack` | core/runtime.ts:1328-1347 | a value is read back as itself exactly when it is trimmed, has no quote at an edge, is not in brackets and is not a mark that opens a list |
| `AgentFileRoundTrip.ListReadsBack` | core/runtime.ts:1332-1338 | a list is read back as itself exactly when each item is non-empty, trimmed, without comma and without a quote at an edge |
| `AgentFileRoundTrip.FrontmatterOfFile` | core/runtime.ts:1031-1033 | the frontmatter of a written file is its entries, one a line, whatever the prompt says |
| `AgentFileRoundTrip.LineReads` | core/runtime.ts:1327-1347 | a line of a key and a value sets that key to the value's reading, and no other |
| `AgentFileRoundTrip.NeverReadBack` | core/runtime.ts:1300-1352 | a value that spans lines is never read back, from any frontmatter |
| `AgentFileRoundTrip.RoundTripUnderName` | core/forge.ts:117-118 | for values on one line and any file name, such as the id that the forge uses: the file is read as the registered agent exactly when id and name are read back as themselves, or read as nothing and equal what the file name gives, and the other values are read back |
| `AgentFileRoundTrip.QuotesReadBack` | core/runtime.ts:748-751 | a pair of quotes is such an id: it is not read back as itself, but in the file named after it |
| `AgentFileRoundTrip.RoundTrip` | core/forge.ts:127-146 | for all specs: the written file is read as the registered agent, whatever the file is called, exactly when every value is on one line and is read back as itself; the model, which is not written, reads as haiku |
| `AgentFileByHand.RawRead` | core/runtime.ts:1346 | a value without quotes at its ends is read from between any quotes, also when just one end has one |
| `AgentFileByHand.ScalarRead` | core/runtime.ts:1327-1347 | a line of a key and a value in quotes sets the key to the value without them |
| `AgentFileByHand.InlineRead` | core/runtime.ts:1332-1338 | a list on one line reads as its items without their quotes |
| `AgentFileByHand.BlockEntryRead` | core/runtime.ts:1315-1323 | a key with indented items after dashes on the next lines reads as just those items |
| `AgentFileByHand.FileByHand` | core/runtime.ts:1300-1352 | a file of any such entries, with comments, blank lines and either kind of line end, means for each key what its last entry says |
| `AgentFileByHand.FieldsByHand` | core/runtime.ts:1031-1052 | every field of the agent comes from the last entry of its key, or is the default; a text stands for the list of what is between its commas |
| `AgentFileByHand.AliasesByHand` | core/runtime.ts:1048-1056 | of the three names of the model's requirement, and the two of the escalation target, the first that is there at all counts, if any says something |
| `AgentFileByHand.QuotedRoundTrip` | core/forge.ts:127-146 | the round trip also holds of a file whose values and items are quoted in any way and whose lists stand on one line or several |
| `AgentFileByHand.BlockKeepsQuotes` | core/runtime.ts:1315-1337 | quotes go from the items of a list on one line and stay in a list over several lines |
| `AgentFileByHand.TitleOfWords` | core/runtime.ts:1018-1020 | the name made from that of a file is its words, capitalised, with spaces for the dashes |
| `Executor.AgentExecutor.ExecuteInternal` | core/executor.ts:494-725 | metrics, statuses, history and answer are those of the tree of calls that the task makes, for every oracle; it ends |
| `Executor.AgentExecutor.DoWork` | core/executor.ts:553-725 | the transport path and the model path, sub-tasks in order up to the first that throws |
| `Executor.AgentExecutor.ExecuteSubTasks` | core/executor.ts:659-672 | the sub-tasks' effects one after the other |
| `Executor.AgentExecutor.HandleEscalation` | core/executor.ts:981-1057 | a tripped breaker, a retry one level deeper with the target, or a failure |
| `Executor.AgentExecutor.RecordResult` | core/executor.ts:1107-1112 | pushes the result; past a thousand only the last five hundred stay |
| `Executor.AgentExecutor.SuccessResult` | core/executor.ts:1061-1083 | counts one success |
| `Executor.AgentExecutor.FailResult` | core/executor.ts:1085-1105 | counts one failure |
| `Executor.AgentExecutor.UpdateStatus` | core/executor.ts:1159-1165 | sets the status of a registered agent and ignores others |
| `Executor.EffectInSteps` | core/executor.ts:494-725 | the effect of a call is that of its steps: busy, sub-tasks, release, outcome, escalation |
| `ExecutorCalls.SubTasksAreExecuted` | core/executor.ts:649-672 | each sub-task that the model asks for is executed, in order and one level deeper, unless an earlier one throws; none is with sub-tasks disabled or at the limit |
| `ExecutorCalls.NeverWorks` | core/executor.ts:500-549 | past the limit, without an agent or past its deadline a call fails, unrecorded, in the name of the system, nobody or the agent; where resolving throws, so does the call |
| `ExecutorCalls.WorkDone` | core/executor.ts:558-583 | work that does not fail: the transport's result is the reply and counts by its status, a model's answer is the agent's success; both are recorded |
| `ExecutorCalls.WorkFailed` | core/executor.ts:707-725 | work that fails, also in a sub-task, ends as escalated where the circuit is open, goes on as the target's call one level deeper and one priority higher up to five, and is otherwise the agent's recorded failure |
| `ExecutorLaws.CallOfAnswered` | core/executor.ts:515-549 | the agent that each call of the tree marks busy, or its throwing, is what resolving answered at its path |
| `ExecutorLaws.Conservation` | core/executor.ts:494-725 | over every tree of calls each call counts one task, and tasks equal successes, failures and escalations together exactly when resolving throws at no path that the tree visits |
| `ExecutorLaws.ThrowingTargetIsLost` | core/executor.ts:515-516 | that condition is needed: a sub-task whose target cannot be resolved is counted without an outcome |
| `ExecutorLaws.CallsKeepBalance` | core/executor.ts:498-499 | the executor's counters stay balanced over a task exactly when resolving throws at no path that its tree visits, and so whenever it never throws |
| `ExecutorLaws.DepthIsBounded` | core/executor.ts:502-513 | no call is deeper than one level below the limit |
| `ExecutorLaws.CallsAreBounded` | core/executor.ts:649-672 | a task makes at most the calls of a full tree down to the limit |
| `ExecutorLaws.AgentsAreLetGo` | core/executor.ts:535-549 | when a task returns or throws, every agent its calls marked busy is idle and no other status changed |
| `ExecutorLaws.TreeAgents` | core/executor.ts:535-549 | the agents marked busy by a tree of calls are just those found at its paths |
| `ExecutorLaws.ParentStaysBusy` | core/executor.ts:659-691 | during its own work after sub-tasks an agent is still marked busy exactly when resolving finds it at no path below its call |
| `ExecutorLaws.ParentIsIdle` | core/executor.ts:659-691 | an agent whose one sub-task resolves to itself is idle during that work |
| `ExecutorLaws.SuccessesAreRecorded` | core/executor.ts:1107-1112 | the successes recorded are just those counted |
| `ExecutorLaws.HistoryIsLatest` | core/executor.ts:1107-1112 | the history is all that was recorded, or its latest part of 500 to 1000 results |
| `WorkerPool.ElasticPool.Start` | core/worker-pool.ts:135-158 | spawns the minimum of workers |
| `WorkerPool.ElasticPool.SpawnWorker` | core/worker-pool.ts:357-380 | adds one idle worker with a new id |
| `WorkerPool.ElasticPool.Submit` | core/worker-pool.ts:186-202 | enqueues a new task and dispatches |
| `WorkerPool.ElasticPool.Enqueue` | core/worker-pool.ts:215-229 | binary insertion puts the task behind just the tasks of higher priority |
| `WorkerPool.ElasticPool.DispatchNext` | core/worker-pool.ts:232-242 | hands the first task to the best idle worker, if there are both |
| `WorkerPool.ElasticPool.FindIdleWorker` | core/worker-pool.ts:245-254 | the first idle worker with the most completed tasks |
| `WorkerPool.ElasticPool.AssignTask` | core/worker-pool.ts:257-267 | the worker is busy with the task, and the executor is called once more for it |
| `WorkerPool.ElasticPool.FinishOk` | core/worker-pool.ts:277-291 | the task is resolved, the worker freed and the next task dispatched |
| `WorkerPool.ElasticPool.FinishError` | core/worker-pool.ts:292-311 | the task is queued again with one more retry, or rejected; the worker is freed and the next task dispatched |
| `WorkerPool.ElasticPool.OnTaskComplete` | core/worker-pool.ts:315-333 | the worker is idle since now and picks up the next task |
| `WorkerPool.ElasticPool.AttemptTaskStealing` | core/worker-pool.ts:341-352 | dispatches until the queue is empty or no worker is idle |
| `WorkerPool.ElasticPool.HealthCheck` | core/worker-pool.ts:412-436 | the same, no task being stuck |
| `WorkerPool.ElasticPool.AutoScale` | core/worker-pool.ts:439-485 | scales up, and then down by the number of workers before |
| `WorkerPool.ElasticPool.ScaleUp` | core/worker-pool.ts:445-460 | adds workers in proportion to the queue, as far as there is room |
| `WorkerPool.ElasticPool.ScaleDown` | core/worker-pool.ts:462-478 | removes workers that were idle too long, down to the minimum |
| `WorkerPool.ElasticPool.ShutdownWorker` | core/worker-pool.ts:383-407 | an idle worker is removed at once |
| `WorkerPool.PositionIs` | core/worker-pool.ts:217-227 | the bisection's position is that behind all higher priorities |
| `PoolLaws.EnqueueIsStableInsert` | core/worker-pool.ts:215-229 | the queue stays sorted, the others keep their order, and the task stands before its equals |
| `PoolLaws.DispatchTakesHighest` | core/worker-pool.ts:232-254 | a dispatch takes a task of the highest priority to an idle worker with the most completed tasks, and fails only without either |
| `PoolLaws.NoTaskIsLost` | core/worker-pool.ts:186-352 | over every interleaving each submitted task is waiting, with one worker, or settled once; it ran at most one more time than it may be retried; busy workers are just those with a task; and their number is within bounds |
| `PoolLaws.WorkIsBounded` | core/worker-pool.ts:270-312 | over every interleaving all runs that ended are at most one more than the retries for each submitted task |
| `PoolLaws.StepKeeps` | core/worker-pool.ts:186-485 | every step keeps the invariant behind these laws |
| `PoolLaws.QuietIsKept` | core/worker-pool.ts:341-352 | after a health check no task waits while a worker is idle, and a step keeps it so exactly when it does not leave new workers beside waiting tasks |
| `PoolLaws.ScalingLeavesTaskWaiting` | core/worker-pool.ts:445-460 | a started pool of one worker that is given two tasks and then scales leaves one waiting beside an idle worker |
| `PoolCounts.ResolvedCounts` | core/worker-pool.ts:285-295 | a task that resolves counts once for its worker, is settled, and changes no other worker's counters |
| `PoolCounts.FailedCounts` | core/worker-pool.ts:297-312 | a task that fails counts against its worker and is settled just when it has no retry left |
| `PoolCounts.ScaleUpAdds` | core/worker-pool.ts:445-460 | scaling up adds the least number of new workers by which there is one for each threshold of waiting tasks, or as many as there is room for |
| `PoolCounts.ScaleDownRemoves` | core/worker-pool.ts:462-475 | scaling then removes the first workers that are idle for longer than the timeout, at most as many as there were above the minimum before |
| `Escalation.EscalationManager.Escalate` | core/escalation.ts:84-205 | the new records and the answer, for any registry and clock |
| `Escalation.EscalationManager.IsCircuitBroken` | core/escalation.ts:213-224 | open exactly while the last escalation is within the window and the count has reached the threshold |
| `Escalation.EscalationManager.Prune` | core/escalation.ts:331-344 | drops just the records outside the window |
| `Escalation.TargetIsFirst` | core/escalation.ts:138-205 | an escalation goes to the agent's own target if that is registered and open to it by priority or tier, and nowhere else |
| `Escalation.EscalationAnswers` | core/escalation.ts:84-205 | the circuit is answered as broken exactly from the escalation on that reaches the threshold within the window, until then the target is the answer, and only this agent's record changes, by one escalation |
| `Escalation.WindowBound` | core/escalation.ts:84-136 | from any state and whatever else happens, at most threshold minus one escalations by one agent are given a target within any window |
| `Escalation.BoundIsReached` | core/escalation.ts:84-136 | the bound is exact: of an agent's escalations in a window, just the first threshold minus one are given a target |
| `Escalation.PruningIsInvisible` | core/escalation.ts:331-344 | over any run with a clock that does not go back, pruning at any moments changes no answer |
| `AgentRegistry.Registry.Register` | core/registry.ts:54-66 | adds the agent unless its id is taken; all indexes agree with the agents afterwards |
| `AgentRegistry.Registry.IndexAgent` | core/registry.ts:72-104 | the agent is in the buckets of its sections, capabilities and tier, and in no other |
| `AgentRegistry.Registry.Unregister` | core/registry.ts:110-141 | removes the agent from the agents and from every bucket |
| `AgentRegistry.Registry.UpdateStatus` | core/registry.ts:257-269 | changes the status of one agent, and no index |
| `AgentRegistry.Registry.LoadFromStore` | core/registry.ts:385-403 | afterwards there are just the stored agents, and the indexes agree |
| `AgentRegistry.Registry.FindBySection` | core/registry.ts:162-166 | just the agents of the section |
| `AgentRegistry.Registry.FindByTier` | core/registry.ts:201-205 | just the agents of the tier |
| `AgentRegistry.Registry.FindByCapability` | core/registry.ts:173-198 | just the agents with a capability that contains the needle or is contained in it |
| `AgentRegistry.Registry.RunQuery` | core/registry.ts:211-249 | from whichever index it starts, a query finds what scanning all agents would |
| `AgentRegistry.Registry.GetEscalationChain` | core/registry.ts:354-376 | the loop with its cycle guard computes the chain |
| `AgentRegistry.ChainIsSound` | core/registry.ts:354-376 | whatever the links are, the chain has no repeats, leaves out its start, follows the targets, and stops only at a missing, unknown or visited target |
| `StateGraph.StateGraphBuilder.AddNode` | core/state-graph.ts:51-57 | adds the node, or throws if its id is taken |
| `StateGraph.StateGraphBuilder.AddEdge` | core/state-graph.ts:60-63 | adds an edge without condition |
| `StateGraph.StateGraphBuilder.AddConditionalEdge` | core/state-graph.ts:66-69 | adds an edge with a condition, which may lead anywhere |
| `StateGraph.StateGraphBuilder.Compile` | core/state-graph.ts:72-105 | throws exactly when the entry, an exit or an end of an edge is no node; otherwise lists just the nodes that cannot be reached |
| `StateGraph.StateGraphBuilder.FindReachableNodes` | core/state-graph.ts:107-127 | the search finds just the nodes reachable over steps that some edge allows, and ends |
| `StateGraph.PlainReachability` | core/state-graph.ts:107-127 | without conditional edges that is reachability over the edges themselves |
| `StateGraph.CompiledGraph.Run` | core/state-graph.ts:156-199 | the trace, state and exit node, or the error, of the specified run |
| `StateGraph.CompiledGraph.ResolveNextNode` | core/state-graph.ts:209-231 | the first condition that chooses a target, then the first edge without condition |
| `StateGraph.RunsAreReachable` | core/state-graph.ts:156-199 | no run of a graph that compiles, from any state and with any conditions and executors, visits or ends at an unreachable node, or misses a node |
| `StateGraph.RunIsBounded` | core/state-graph.ts:156-199 | a run executes at most the maximum of iterations |
| `StateGraph.TraceIsWalk` | core/state-graph.ts:156-199 | the trace follows steps that the edges allow |
| `StateGraph.ExitIsLast` | core/state-graph.ts:178-196 | the exit node of a finished run: the last node executed if it is an exit node or nothing comes next, and otherwise the next one, the iterations being used up |
| `StateGraph.ExitNotExecuted` | core/state-graph.ts:192-196 | with one iteration, a graph of two nodes executes the first and exits at the second |
| `StateGraph.NextDecided` | core/state-graph.ts:209-231 | the first condition that chooses or throws decides, before any plain edge; then the first plain edge; without one the run stops |
| `StateGraph.RunFollows` | core/state-graph.ts:156-199 | each node is executed on the state the one before left and is the one chosen there, the last state is returned, and a run throws just where its last node or choice does |
| `EmbeddingCache.LruCache.GetEntry` | core/embedder.ts:260-268 | returns the value and moves its key to the end |
| `EmbeddingCache.LruCache.SetEntry` | core/embedder.ts:270-279 | puts the key at the end, pushing out the first when the cache is full |
| `EmbeddingCache.CacheIsExact` | core/embedder.ts:252-288 | after any operations the entries, in order, are the last keys by their last touch, as many as fit, each with its latest value |
| `EmbeddingCache.ByRecencyIsByLastTouch` | core/embedder.ts:260-279 | the reference is just the touched keys, each with the value of its last touch, in the order of last touches |
| `BloomFilter.Filter.GetHashes` | core/rag-meta-index.ts:116-125 | every index is within the bits and within the bytes |
| `BloomFilter.Filter.Add` | core/rag-meta-index.ts:93-100 | sets just the item's bits; no bit is ever cleared |
| `BloomFilter.Filter.Test` | core/rag-meta-index.ts:103-113 | answers yes exactly when all the item's bits are set |
| `BloomFilter.Filter.AddAll` | core/rag-meta-index.ts:93-113 | after any additions to an empty filter just the bits of the items are set, so each item tests as present |
| `BloomFilter.RemainderTwice` | core/rag-meta-index.ts:121-122 | JavaScript's remainder, taken twice, is the one that is never negative |

## Left out

- Identity of objects: nodes, tasks, workers and agents are values under their ids, so that two names for one object, and updates seen through both, are not modelled.
- Time and randomness: clocks are parameters, and all readings within one call are one instant; node ids are drawn from a counter, without the clock part of their text, and pair keys are pairs of ids.
- The checkpoint's primary key is the triple of workflow, step index and clock rather than its text; failing writes to the store are not modelled.
- Durable.Store.GetLatestCheckpoint: among rows of one workflow with the same highest step index any may be returned, because the query does not order them further.
- Recovery.HistoriesRecover: step executors are functions of the step and the state that do not look at the two failure keys.
- Rule bodies for a task with a constructor, duplicator or eraser, join merging, fan-out and checkpoints of the net: no rule key reaches the former, and the rest only calls them.
- SchedulerLoop.Scheduler.RunToCompletion: effects, metrics and throughput of the scheduler are not modelled, nor is its periodic scan, which makes the same moves.
- Line and column numbers of tokens are computed by the lexer's methods but not specified, and error messages are not modelled.
- Characters are Dafny characters: UTF-16 surrogates, case folding and normalisation are not modelled.
- AgentFile.ParseAgentMetadata: only the frontmatter branch is modelled; key-value lines, XML tags and the transport block are not.
- The spawn limits of tiers, the registry of the forge and the writing of files.
- Executor.AgentExecutor.ExecuteInternal: prompts, retrieval, durations and averages are left out, and recording a result is taken not to throw; resolution, transports, models and escalations are arbitrary answers.
- Executor.AgentExecutor.RecordResult: the store and the message bus are not modelled.
- WorkerPool.ElasticPool.HealthCheck: the branch for stuck workers is not modelled, since a late completion there can free a worker that holds another task; stopping and draining are left out too.
- WorkerPool.ElasticPool.FinishOk: an executor that throws before it returns its promise is not modelled.
- Escalation.EscalationManager.Escalate: recommendations, counts for statistics, loading from the store and manual resets are not modelled; the store's part is arbitrary starting records.
- AgentRegistry.Registry.RunQuery: results are sets of ids, without their order; lookup by suffix, resolution by capability and callbacks are not modelled.
- AgentRegistry.Registry.LoadFromStore: the store's ids are distinct, as primary keys are.
- BloomFilter.Filter.GetHashes: the two hash functions are arbitrary, and so are the size and the number of hashes, which the original computes in floating point.
- StateGraph.CompiledGraph.Run: the labels in the trace are not modelled.
- Confluence of the net is not claimed: the code does not deliver it.
- Vector search, text similarity, guardrails, group chat, plugins, conversations, servers, providers and storage engines: plumbing and heuristics around the modelled core.
