# Cutlery Remote, verified

A model in Dafny 4.11 of the parts of Cutlery Remote that are hardest to get right, with proofs of what they promise.
`dafny verify dfyconfig.toml` checks all of it.

**The remote-group compiler.** A ComfyUI prompt is a dataflow graph. Nodes drawn inside a remote group are cut out and
sent to another machine as a workflow of their own; producers of values that cannot be sent are rebuilt there; links
across the border become ports of a wrapper node, some through blob encoders and decoders; local copies that nothing
needs any more are pruned. The modules follow that path: `EditorGroups` (what is drawn, and what lies inside a group),
`Relocation` (which producers move), `Capacity` and `GroupCompiler` (one group, with all its failures), `Preload`,
`Prune`, `Compiler` (all groups in order). `GroupCode` says what the output of one group is without saying how it is
made. `Semantics` says what a prompt computes: node evaluation is an uninterpreted function of class and inputs, and a
wrapper evaluates its remote workflow on its inputs, to any depth. `Agreement`, `UnitMeaning`, `StepMeaning`,
`Scheduling`, `CompilerMeaning` and `CompilerTheorem` prove that compilation keeps the meaning of the prompt.

**Protocols.** `Cancellation`, `Transfers`, `RemoteJob` and `JobRegistry` are state machines: a step is what one party
does between two points at which others can move, and every theorem is about every run of any length with any number of
parties. `Outcomes`, `TransferOutcomes` and `JobReplies` say what each call comes to, by the order of the steps of a run
alone: which outcome a prompt's run reports, how a call for a transfer ends, who wins a job and what everybody is
answered. `Traces` has the words for that.

**Structures with state.** `Tombstones.Store`, `Progress.Mirror`, `MediaCache.Cache`, `Serialization.MemoryBlobStore`
and `ModelPreparation.Coordinator` are classes; their methods are proved against functions of their fields, and lemmas
say what those functions guarantee. `Reroute`, `Base64` (section 4 of RFC 4648), `Manifest` and `Contract` complete the
picture.

Where the code does less than its documentation says, the code is modelled, and the exact condition is proved:

- The docstring of `RemoteExecutionJob` says that a cancellation attempts every callback. An accepted abort callback is
  run if and only if its registration was over before the cancellation won; the same holds for the later phases and
  their beginning (`RemoteJob.RunsIffRegisteredInTime`, with the run in `RemoteJob.LateAbortIsDropped`).
- An explicit `cleanup` call can run before the phases of a cancellation. The order is kept if and only if the cleanup
  was not claimed before there was a winner, nor before the winner was through with its phases
  (`RemoteJob.CancelBeforeCleanup`, with a run that breaks it in `RemoteJob.ExplicitCleanupComesFirst`).
- The docstring of `build_model_manifest` says that it is independent of order. For a list without conflict it is, if and
  only if no destination is spelt in two ways (`Manifest.OrderIndependentExactly`).
- A cancellation that comes as a message on a stream, or with its closing, is not recorded. It takes effect if and only if
  the prompt has been queued; before that it changes nothing (`Cancellation.UnrecordedCallExactly`).
- Records of cancellations expire and are crowded out. A dropped record does harm exactly while its prompt is still to be
  queued, until a new record is made (`Cancellation.DropHarmsUnqueued`).
- `RemoteExecutionJobRegistry.remove`, called for a listed id by anyone but a cleanup, and for no other id, makes a live
  job unfindable (`JobRegistry.DiscardHarmsListed`). In the source nobody makes such a call: its only caller is the
  cleanup callback that `register` adds.
- A link to a node that does not exist is left alone, unless the missing id is one that the compiler generates; then it
  becomes a link to the new node (`CompilerTheorem.CapturedExactly`).

## Model

| member | source | states |
|---|---|---|
| CompilerTheorem.CompilerPreservesMeaning | cutlery_remote/group_compiler.py:921-1024 | For every acyclic prompt whose quotient by the groups is acyclic and none of whose dangling links has a name that the compiler may generate, a successful compilation leaves an acyclic prompt; every node neither grouped nor pruned keeps its value; every wrapper, on the inputs it reads in the compiled prompt, runs a workflow in which each inside or relocated node has its original value; and in all of them exactly the links dangle that dangled before. |
| CompilerMeaning.CompilationPreservesMeaning | cutlery_remote/group_compiler.py:954-1009 | The same for values, by induction over the groups compiled one after another into the same prompt, from the exact conditions that contracting each group with what it relocates leaves no cycle and that no dangling link names a node generated where it ends up. |
| CompilerMeaning.SchedulableThrough | cutlery_remote/group_compiler.py:954-983 | The prompt left after all groups is acyclic if and only if the original is acyclic after contracting each group with what it relocates; the compiler itself never looks. |
| Scheduling.ContractStep | cutlery_remote/group_compiler.py:722-918 | Compiling one group keeps, in both directions, whether the prompt with the remaining groups contracted has a cycle. |
| CompilerTheorem.QuotientIsEnough | cutlery_remote/group_compiler.py:540-594 | If the quotient by the drawn groups is acyclic, so is the contraction that also counts the relocated producers. |
| CompilerTheorem.CapturedExactly | cutlery_remote/group_compiler.py:120-128 | Compiling a group leaves every dangling link dangling, in the remaining prompt and in the workflow, if and only if none names an id that is generated there; a captured one reads the new node. |
| CompilerMeaning.ClearThrough | cutlery_remote/group_compiler.py:336-342 | If no dangling link of the prompt has a name of the generated kind, which can be checked beforehand, none is captured by any of the groups compiled in turn. |
| StepMeaning.DanglingStays | cutlery_remote/group_compiler.py:816-916 | Compiling a group makes no link dangle that did not; a dangling link of a survivor is left as it is, and dangles afterwards if and only if it names no new node. |
| CompilerTheorem.WorkflowDangles | cutlery_remote/group_compiler.py:734-846 | In a remote workflow only copies have dangling links, only those of their originals, and each dangles if and only if it names no new node of the workflow. |
| CompilerTheorem.WorkflowIsClosed | cutlery_remote/group_compiler.py:734-846 | If the prompt has no dangling link, every link of a remote workflow ends in that workflow. |
| StepMeaning.StepPreserves | cutlery_remote/group_compiler.py:722-918 | After one group is compiled, a valuation of the old prompt extends to one of the new prompt in which every survivor has its old value and every wrapper output is the value that its source had. |
| StepMeaning.LinksStayClosed | cutlery_remote/group_compiler.py:816-916 | Compiling a group leaves no dangling link in a prompt that had none. |
| UnitMeaning.WorkflowComputes | cutlery_remote/group_compiler.py:734-846 | On a request that carries what the ports' sources are worth, the remote workflow is acyclic and gives every copy the value that its original has locally. |
| UnitMeaning.LinksClimb | cutlery_remote/group_compiler.py:734-846 | The links of a remote workflow run from input boundaries to copies to encoders to the output boundary, and between copies only as in the prompt. |
| StepMeaning.WrapperEmits | cutlery_remote/group_compiler.py:816-846 | What a wrapper puts on output i is what its workflow emits for port i: the encoded value for masks, latents and conditioning, the value itself otherwise. |
| Semantics.EvalIsTheSolution | cutlery_remote/group_compiler.py:847-916 | An acyclic prompt has exactly one valuation that satisfies all its nodes, wrappers included, whatever the order of evaluation. |
| Agreement.ExecutorAgrees | nodes_remote.py:1577-1606 | The executor accepts a compiled wrapper's workflow and ports, with or without inbound ports, if and only if no copy is a user-placed output boundary, or an input boundary that declares ports of its own. |
| Agreement.OutPortsReadBack | cutlery_remote/group_compiler.py:835-846 | The generated output port list is well formed, with distinct names, after masks, latents and conditioning have become json. |
| Agreement.DeclaredTypesFit | cutlery_remote/group_compiler.py:786-837 | An outbound port declares the type of what it sends, or json if an encoder and a decoder stand at its two ends; they do exactly for masks, latents and conditioning. |
| Agreement.InPortsReadBack | cutlery_remote/group_compiler.py:822-833 | The generated input port list is well formed, reads back unchanged and has distinct names. |
| Agreement.NamesDiffer | cutlery_remote/group_compiler.py:732-895 | Wrapper, preparation, output, boundary, encoder and decoder ids of one group never coincide. |
| Contract.ParsePorts | nodes_remote.py:1474-1510 | Accepts exactly the port lists of at most 64 ports with valid, distinct names and supported types, and returns them in canonical form. |
| Contract.PortNameExactly | nodes_remote.py:112 | A port name is a letter or underscore and up to 63 letters, underscores or digits after it. |
| Contract.CollectPorts | nodes_remote.py:1537-1574 | The ports declared by all boundary nodes of one kind, in prompt order; an error if any declaration is malformed. |
| Contract.ValidateBoundaryContract | nodes_remote.py:1577-1606 | Accepts a workflow without any boundary node for a wrapper without ports; otherwise exactly the workflows with boundary nodes of both kinds, a single output boundary, distinct names, the wrapper's ports in the same order, and allowed directions. |
| Contract.OneOfEachSuits | nodes_remote.py:1577-1606 | A workflow with a single boundary node of each kind suits exactly the ports that these declare, if their types are allowed in their direction. |
| Contract.UnboundedSuitsNoPorts | nodes_remote.py:1577-1606 | A workflow without boundary nodes suits just a wrapper without ports. |
| Capacity.FitsWithin | cutlery_remote/group_compiler.py:345-350 | If all different boundary values occur in a list of at most 64 ports, the capacity suffices. |
| GroupCompiler.CompileGroup | cutlery_remote/group_compiler.py:722-918 | Succeeds if and only if every link across the border has a type allowed in its direction and at most 64 different values cross each way; then workflow, ports, remaining prompt, executor class, cache policy and preload workflow are exactly as specified. |
| GroupCompiler.RewireCopies | cutlery_remote/group_compiler.py:734-773 | Copies the remote nodes with each outside link turned to an input boundary that carries its source, slot and type; one port for each different value. |
| GroupCompiler.CollectOutbound | cutlery_remote/group_compiler.py:775-798 | Finds every link that leaves the group, one port for each source slot, and checks the type of every one. |
| GroupCompiler.NameAdapters | cutlery_remote/group_compiler.py:800-810 | Encoder and decoder ids are new to the prompt and follow the numbered pattern. |
| GroupCompiler.BuildWorkflow | cutlery_remote/group_compiler.py:811-846 | The workflow has exactly the copies, encoders, input boundaries in port order and the output boundary. |
| GroupCompiler.RewireConsumers | cutlery_remote/group_compiler.py:819-820 | Every local consumer of a grouped node reads the wrapper or the decoder of the right port, and nothing else changes. |
| GroupCompiler.BuildRemainder | cutlery_remote/group_compiler.py:811-916 | The prompt that is left: survivors rewired, decoders, preparation node and wrapper added, the group gone. |
| GroupCompiler.ExecutorClass | cutlery_remote/group_compiler.py:425-449 | The plain executor is chosen exactly if a grouped node is a partial target, there is no output, or a grouped node is an output node both here and remotely. |
| GroupCompiler.BothSidesDecide | cutlery_remote/group_compiler.py:425-479 | A node with definitions on both sides is an output node, or cached by its inputs, exactly if both say so. |
| GroupCompiler.UndefinedIsNeither | cutlery_remote/group_compiler.py:425-479 | A node without a class, or without definitions, counts as neither. |
| GroupCompiler.GroupCachePolicy | cutlery_remote/group_compiler.py:457-479 | The sender may cache exactly if the wrapper is a value executor and every remote node declares all its inputs on both sides. |
| GroupCompiler.CompiledFits | cutlery_remote/group_compiler.py:308-350 | A group that was compiled had only allowed links and no more values than ports. |
| GroupCompiler.PreparationAgrees | cutlery_remote/group_compiler.py:874-916 | The node that a compiled wrapper waits for is a preparation node that is given the same workflow as the wrapper, for the group's machine, under the same cache policy and time limit, and whose preload workflow is the one selected from that same workflow. |
| Compiler.CompileRemoteGroups | cutlery_remote/group_compiler.py:921-1024 | A success is a compilation in order of groups with exactly planned relocations and exact pruning; a refusal names a cross-group link, a blocked relocation, or a group that cannot be compiled at its turn. |
| Compiler.FindCrossLink | cutlery_remote/group_compiler.py:521-537 | Finds a link between two groups if and only if there is one. |
| Compiler.GroupMembership | cutlery_remote/group_compiler.py:513-518 | Maps every grouped node to its group. |
| Compiler.PlanAll | cutlery_remote/group_compiler.py:942-953 | All groups are planned on the original prompt; succeeds if and only if no group has a blocked producer. |
| Compiler.PlannedApart | cutlery_remote/group_compiler.py:553-568 | No relocated producer belongs to any group. |
| Relocation.PlanGroupRelocation | cutlery_remote/group_compiler.py:540-594 | Succeeds if and only if no producer reached backwards through unsendable links belongs to another group, fails its recipe checks or needs itself; then returns exactly the producers reached, which are acyclic among each other. |
| Relocation.Visit | cutlery_remote/group_compiler.py:553-581 | The depth-first visit ends, keeps what it has found closed, ranked and sound, and fails only with a producer that must be refused. |
| Relocation.EnteringLinksCanBeSent | cutlery_remote/group_compiler.py:583-594 | With the relocated producers in the remote set, every link that enters from outside can be sent. |
| Relocation.RankFalls | cutlery_remote/group_compiler.py:566-572 | No chain of unsendable links inside the planned set returns to its start. |
| Relocation.PortTypesStay | cutlery_remote/group_compiler.py:583-594 | A producer that is read only through links of port types, such as IMAGE or LATENT in any case, is never moved and never blocks a plan. |
| Relocation.RuntimeObjectsMove | cutlery_remote/group_compiler.py:583-594 | A producer outside the group of a MODEL, CLIP or VAE that a grouped node reads is reached, so it is moved or planning is refused. |
| Relocation.MovedCanBeRebuilt | cutlery_remote/group_compiler.py:482-510 | Every node that is moved is ungrouped, has a class defined alike on both machines that is no output node and can be run again, and has inputs that the definition knows. |
| Relocation.BlockedExactly | cutlery_remote/group_compiler.py:482-510 | A reached producer with definitions on both sides blocks a plan if and only if one of that fails, it is grouped, or it needs itself. |
| Preload.SelectEligible | cutlery_remote/group_compiler.py:635-660 | The rounds of selection end with the least set of relocated nodes that contains every node whose links all name members of it. |
| Preload.EligibleExactly | cutlery_remote/group_compiler.py:635-660 | In any workflow these are exactly the nodes from which following links neither leaves the relocated nodes nor meets a cycle. |
| Preload.PreloadWorkflow | cutlery_remote/group_compiler.py:629-684 | The preload workflow holds the selected nodes and, if one of them has an output that cannot be sent, a new node that asks for exactly those outputs. |
| Preload.PreloadIsRunnable | cutlery_remote/group_compiler.py:662-684 | The preload workflow has no dangling link and no cycle, even if the workflow it was selected from has cycles. |
| Preload.PreloadedValue | cutlery_remote/group_compiler.py:662-684 | Every node that is preloaded has the value that the full workflow gives it, under any valuation that satisfies that workflow. |
| Prune.PruneRelocated | cutlery_remote/group_compiler.py:985-1009 | Removes exactly the relocated nodes with no chain of relocated consumers to a reader that stays. |
| Prune.FindRetained | cutlery_remote/group_compiler.py:985-1005 | The worklist ends, and retains exactly what is needed by what stays. |
| Prune.PruningIsSafe | cutlery_remote/group_compiler.py:1006-1009 | Pruning makes no link dangle that did not and no new cycle, and keeps every value as it was. |
| Ids.UniqueId | cutlery_remote/group_compiler.py:336-342 | Ends by a pigeonhole argument with the preferred id if it is free, else with the smallest free number from 2 on. |
| Ids.DecimalRoundTrip | cutlery_remote/group_compiler.py:339-342 | Decimal numerals read back, so numbered candidates are pairwise distinct. |
| Ids.FirstNames | cutlery_remote/group_compiler.py:791-837 | Groups and ports are numbered from one, and a second candidate gets the suffix 2. |
| Ids.NumberedCandidatesDiffer | cutlery_remote/group_compiler.py:760-810 | Ids generated for different ports never coincide, even when both had to be renumbered. |
| BoundaryTypes.NormalizeSupported | cutlery_remote/boundary_types.py:43-47 | Canonical port types are fixed points of the normalisation. |
| BoundaryTypes.NormalizeIsBlind | cutlery_remote/boundary_types.py:43-47 | Normalisation does not see case, nor white space around a type. |
| BoundaryTypes.NormalizeTwice | cutlery_remote/boundary_types.py:43-47 | Normalising twice is normalising once, for any text. |
| BoundaryTypes.SocketsNormalize | cutlery_remote/boundary_types.py:21-47 | Each ComfyUI socket type of the table comes to its port type, and can cross. |
| BoundaryTypes.RuntimeObjectsStay | cutlery_remote/boundary_types.py:43-47 | MODEL, CLIP and VAE come to no port type. |
| BoundaryTypes.CanCrossExactly | cutlery_remote/boundary_types.py:35-47 | A type can cross if and only if, without white space and in small letters, it is a port type, an alias of one, or the wildcard; an alias comes to its port type. |
| BoundaryTypes.StripIsMiddle | cutlery_remote/boundary_types.py:46 | Stripping finds the only middle of a text that is trimmed and has nothing but white space around it. |
| BoundaryTypes.LowerAlike | cutlery_remote/boundary_types.py:46 | Two texts are folded alike if and only if they differ at most in the case of letters. |
| Editor.SocketTypeDecided | cutlery_remote/group_compiler.py:275-305 | The source socket decides the type of a link if it says something; if not, the first input socket of that name at the target that does; failing that, the first link drawn between them. |
| EditorGroups.CompileEditorRemoteGroups | cutlery_remote/group_compiler.py:921-1024 | From the editor's workflow to the compiled prompt: projection, group assignment and compilation together; a refusal has its reason. |
| EditorGroups.Visit | cutlery_remote/group_compiler.py:158-227 | Ends on every subgraph library, also with subgraphs that contain each other, and draws exactly the nodes, groups and links, number and order included, of the graphs reached by expanding nodes that are not being expanded already. |
| EditorGroups.EachPathOnce | cutlery_remote/group_compiler.py:216-227 | The graphs are visited in depth-first order of the nodes, once for every path of nodes that can be expanded, and for nothing else. |
| EditorGroups.ExpandableExactly | cutlery_remote/group_compiler.py:200-229 | A path leads to a graph if and only if its nodes stand for one subgraph after the other, none of them twice; the last of them is that graph. |
| EditorGroups.DrawnExactly | cutlery_remote/group_compiler.py:158-199 | A group record or a link is drawn if and only if it is one of a graph at the end of some path: of a group with a target and bounds, over all nodes there, or of a link with both ends there. |
| EditorGroups.ProjectionIsFaithful | cutlery_remote/group_compiler.py:158-227 | When local ids have no colon, qualified ids are distinct, and each names the node at the end of its path. |
| EditorGroups.QualifiedOnce | cutlery_remote/group_compiler.py:217-225 | A qualified id determines the path and the local id. |
| EditorGroups.RemoteGroups | cutlery_remote/group_compiler.py:233-272 | Succeeds if and only if no node of the prompt straddles a group of its graph or lies within two; the groups are disjoint and hold exactly the nodes within them. |
| EditorGroups.InsideOneOrApart | cutlery_remote/group_compiler.py:240-272 | A node of the prompt is inside exactly one group, or overlaps no group of its graph. |
| EditorGroups.GroupOf | cutlery_remote/group_compiler.py:247-268 | The one group that contains a node, or none; an error exactly for a badly placed node. |
| EditorGroups.InsideExactly | cutlery_remote/group_compiler.py:233-272 | A node is in a group if and only if it is drawn in its graph wholly within its bounds and is in the prompt with the same class; it is refused if and only if it crosses a border in its graph or lies within two groups. |
| EditorGroups.ContainsPoints | cutlery_remote/group_compiler.py:98-106 | A rectangle contains another exactly if it covers all its points. |
| EditorGroups.OverlapsPoints | cutlery_remote/group_compiler.py:109-117 | Two rectangles overlap, in either order, exactly if some point lies strictly inside both. |
| Cancellation.NoCancellationLost | nodes_wf3_boundary.py:1247-1446 | In every run, once the call that recorded a cancellation is over, and unless its record was dropped before the prompt was queued and none followed, the prompt is turned away before queueing, removed from the queue, interrupted, or finished; before queueing, a record so dropped is indeed lost. |
| Cancellation.NoPromptLeftQueued | nodes_wf3_boundary.py:1412-1446 | However a run of a workflow ends, its prompt is not left queued, is running only if interrupted, is done if success was reported, and is unqueued without inputs if failure was. |
| Outcomes.OutcomeExactly | nodes_wf3_boundary.py:1316-1446 | In every run, a prompt's run has ended `Finished` if and only if it looked at the history when the work was done, `Failed` if and only if the prompt was refused before queueing, `Cancelled` if and only if it looked for a record when there was one, and `TimedOut` if and only if its deadline passed first; nothing else ends it. |
| Outcomes.QueueExactly | nodes_wf3_boundary.py:1247-1273 | In every run, where the prompt stands in the queue, whether it is interrupted, and whether a cancellation is recorded, are told by the order of the steps: put, start, finish, removal, interruption, record, look and drop. |
| Outcomes.InputsExactly | nodes_wf3_boundary.py:1259-1273 | In every run, the input files are there if and only if they were written, the run did not end before queueing, and no call ended that had taken the prompt out of the queue, or had not interrupted it although a record was there or heeded. |
| Outcomes.RunCanEnd | nodes_wf3_boundary.py:1411-1446 | From every state, each run can be brought to its return by its own steps and those of the coroutine that holds the event loop. |
| Outcomes.FinishedRun | nodes_wf3_boundary.py:1413-1425 | There is a run that reports success. |
| Cancellation.NoInputsPulledAway | nodes_wf3_boundary.py:663-676 | In every run, a queued or running prompt has had its inputs deleted if and only if its record was dropped after they were deleted and before it was queued, and no record followed in time. |
| Cancellation.NoStepPullsLiveInputs | nodes_wf3_boundary.py:1259-1273 | Even when records are dropped, no step deletes the inputs of a queued or running prompt. |
| Cancellation.StepKeepsInv | nodes_wf3_boundary.py:1316-1446 | Every step of runner, interrupt route, stream, worker or expiry keeps the invariant, for the prompt concerned and for all its neighbours. |
| Cancellation.DroppedRecordPullsInputs | nodes_wf3_boundary.py:1261-1265 | Such a drop does happen: if the record is dropped while the prompt is validated, the prompt is queued without its inputs. |
| Cancellation.DropHarmsUnqueued | nodes_wf3_boundary.py:129-166 | Dropping a record undoes a settled cancellation if and only if the prompt is still to be queued. |
| Cancellation.UnrecordedCallExactly | nodes_remote.py:1442-1471 | Whatever the worker does meanwhile, a call that records nothing settles a prompt if and only if the prompt had been queued; before that it changes nothing at all. |
| Cancellation.SettledStays | nodes_wf3_boundary.py:1247-1273 | A prompt that has been queued and is out of the queue, interrupted or done stays so in every run. |
| Cancellation.UnrecordedCancellationIsLost | nodes_remote.py:1442-1471 | Such a call is lost: a prompt for which it comes before queueing is queued all the same. |
| Tombstones.Store.Record | nodes_wf3_boundary.py:129-146 | Records the cleaned id at the given time, and keeps the store within 4096 entries and in agreement with the log of all calls, exactly so if the clock rises. |
| Tombstones.Store.Consume | nodes_wf3_boundary.py:149-156 | Finds a record exactly as the log says: what it finds is recorded, not consumed since and not too old; what it does not find is not recorded, consumed, expired or crowded out. |
| Tombstones.Store.IsRecorded | nodes_wf3_boundary.py:159-166 | The same answer without consuming. |
| Tombstones.ConsumedOnce | nodes_wf3_boundary.py:149-156 | After a call that consumed an id, the log has no record of it until it is recorded again. |
| Tombstones.CrowdingNeedsFullStore | nodes_wf3_boundary.py:129-146 | When calls are logged in clock order, a record is crowded out only by 4096 other ids recorded no earlier than it. |
| Tombstones.AnswerSaysWhy | nodes_wf3_boundary.py:129-166 | When calls are logged in clock order, a record that is not found was never made, was consumed, is older than the time to live, or is outnumbered by 4096 other ids; unless it is outnumbered, the answer is exactly that of the unbounded log. |
| Tombstones.AnswerExactly | nodes_wf3_boundary.py:129-166 | When every call reads a later time, a record is found if and only if it was made, not consumed since, is not older than the time to live, and no other id was recorded while the store was full of newer live records. |
| Tombstones.EvictedRefines | nodes_wf3_boundary.py:134-145 | Evicting an oldest entry for a new one keeps the store in agreement with the log. |
| Transfers.OneTransferPerTarget | cutlery_remote/model_preparation.py:413-433 | In every run at most one thread leads a transfer to a target, so at most one callback is active there. |
| Transfers.FollowersShareOutcome | cutlery_remote/model_preparation.py:435-440 | A thread that leads or follows an entry for the identical model ends with exactly the result or error of its leader, unless its own cancellation check fired while it followed; a thread that never came so far ends with the error its request calls for, or because its check fired. |
| Transfers.TryMeets | cutlery_remote/model_preparation.py:413-433 | A waiting thread transfers if nobody else transfers to its target; it ends with a conflict exactly if the transfer under way is for the same destination and another model, follows exactly if it is for the same model, and otherwise waits on unless its own check fires. |
| TransferOutcomes.CallEnds | cutlery_remote/model_preparation.py:396-440 | In every run, a call has ended without a hash or a target exactly if the request lacked one, with a conflict if and only if it met one, by its own check if and only if that fired while it waited or followed, and otherwise with the outcome of the entry it joined. |
| TransferOutcomes.OutcomeIsTheLeaders | cutlery_remote/model_preparation.py:441-454 | In every run, the outcome that a thread took is a result if and only if its leader's callback gave it and the check after it passed, an error if and only if the callback raised it, and a cancellation if and only if one of the leader's checks fired. |
| Transfers.TargetsAlike | cutlery_remote/model_preparation.py:413-417 | Targets are the same if and only if they differ at most in case and in white space around them. |
| Transfers.DoneIsFixed | cutlery_remote/model_preparation.py:442-454 | Once an entry is done its outcome never changes. |
| Transfers.GuardHolds | cutlery_remote/model_preparation.py:449-454 | When a leader comes to remove its entry, that entry is the one in the map. |
| Transfers.NoTargetBlocked | cutlery_remote/model_preparation.py:449-454 | When every call has ended, no target has an active transfer. |
| Transfers.SomebodyCanGoOn | cutlery_remote/model_preparation.py:413-454 | While a call is unfinished some thread can go on, even if no cancellation check ever fires. |
| Transfers.StepsGoForward | cutlery_remote/model_preparation.py:413-454 | Every step that changes anything brings its thread nearer to its end and moves no other thread. |
| Transfers.StepKeepsInv | cutlery_remote/model_preparation.py:413-454 | Every step keeps the invariant that ties threads, entries and the map of active transfers together. |
| RemoteJob.OneWinner | cutlery_remote/remote_job.py:116-148 | In every run at most one of succeed, fail and cancel wins; result, error and the cancellation event are there exactly with the matching state and hold what the winner gave. |
| JobReplies.FirstCallWins | cutlery_remote/remote_job.py:98-148 | In every run the first call of succeed, fail or cancel wins, started or not, and no other; the job is pending exactly until a call of start or of these, and holds what the winner gave. |
| JobReplies.EveryCallIsAnswered | cutlery_remote/remote_job.py:98-192 | In every run each ended call has the answer that is due: start succeeds exactly if it is the first call, a registration exactly if the cleanup has not begun; succeed and fail raise exactly if they did not win or the cleanup failed; cancel answers false exactly if it did not win, and raises exactly if one of its own or a cleanup callback failed; cleanup raises exactly if a cleanup callback failed, and else says whether it ran it. |
| JobReplies.SomebodyCanGoOn | cutlery_remote/remote_job.py:150-166 | While a call has not ended, some call can go on: nobody waits for the cleanup lock for ever. |
| RemoteJob.TerminalIsFinal | cutlery_remote/remote_job.py:176-178 | A terminal state, its winner, result and error never change. |
| RemoteJob.CleanupRunsEachOnce | cutlery_remote/remote_job.py:150-192 | When the cleanup is over, exactly the cleanup callbacks whose registration succeeded have run, each once and in order, whichever of them failed. |
| RemoteJob.CleanupNeverRepeats | cutlery_remote/remote_job.py:150-166 | At no time has a cleanup callback been started twice. |
| RemoteJob.CleanupTrueOnce | cutlery_remote/remote_job.py:150-166 | At most one caller of cleanup is answered true. |
| RemoteJob.CancelBeforeCleanup | cutlery_remote/remote_job.py:132-148 | In every run the phases of a winning cancellation and the cleanup come in order, beginnings, callbacks and ends, if and only if the cleanup was not claimed early; without a cancellation only cleanup callbacks run. |
| RemoteJob.EarlyExactly | cutlery_remote/remote_job.py:150-166 | The cleanup is claimed early exactly if it is claimed before there is a winner, or before the winner is through with peer-interrupt. |
| RemoteJob.WinnerIsNotEarly | cutlery_remote/remote_job.py:116-148 | A terminal transition that runs the cleanup itself never claims it early. |
| RemoteJob.NoCleanupCallsNotEarly | cutlery_remote/remote_job.py:116-166 | If nobody calls cleanup explicitly, it is never claimed early. |
| RemoteJob.PhaseRunsExactly | cutlery_remote/remote_job.py:138-140 | In every run a winning cancellation starts, of each phase, exactly the callbacks registered when it came to that phase, in order and each once, and has finished them when it leaves the phase. |
| RemoteJob.RunsIffRegisteredInTime | cutlery_remote/remote_job.py:138-140 | An accepted callback of a phase that the cancellation has left was started, and was finished, if and only if its registration was over before the cancellation came to that phase. |
| RemoteJob.AbortBegins | cutlery_remote/remote_job.py:132-138 | The abort phase begins exactly with the call by which the cancellation wins. |
| RemoteJob.PhaseBegan | cutlery_remote/remote_job.py:138-140 | Every phase that a cancellation has come to was begun by some step of the run. |
| RemoteJob.StepKeepsInv | cutlery_remote/remote_job.py:98-192 | Every step of any caller at an await keeps the invariant of state, callbacks, cleanup lock and log. |
| RemoteJob.ExplicitCleanupComesFirst | cutlery_remote/remote_job.py:150-166 | The condition is needed: in one run an explicit cleanup call finishes a cleanup callback before the abort callback of a later cancellation starts. |
| RemoteJob.LateAbortIsDropped | cutlery_remote/remote_job.py:138-140 | In one run an abort callback registered after the cancellation won is accepted and is not run. |
| JobRegistry.LookUpFindsLiveJobs | cutlery_remote/remote_job.py:201-220 | As long as removals from outside name no listed id, a look-up finds a job exactly from its registration until its removal callback has run. |
| JobRegistry.DiscardHarmsListed | cutlery_remote/remote_job.py:219-220 | A removal from outside breaks the registry if and only if the id is listed; the job under it is then live and cannot be found. |
| JobRegistry.DiscardLosesAJob | cutlery_remote/remote_job.py:207-220 | In one run, after a removal from outside, the cleanup of one job takes out another live job of the same id. |
| Progress.Mirror.Ingest | cutlery_remote/progress.py:174-191 | Succeeds if and only if the mirror is open, the numbers are in range, prompt and node are the right ones, and for a visible node the sequence number rises and neither number falls; otherwise changes nothing. On success the event counts, and an update with the new sum is sent at once if and only if it is the first of the node, the contributions are complete, or an interval has passed; if not, the node is pending. |
| Progress.Mirror.SetLocalProgress | cutlery_remote/progress.py:193-205 | The same for local work on a node. |
| Progress.Mirror.Flush | cutlery_remote/progress.py:207-217 | Unforced, sends an update for every pending node whose interval has passed and for no other; forced, one for every pending node; no other emission is called forced. |
| Progress.NothingIsLost | cutlery_remote/progress.py:244-282 | After every call each contributing node has been told of, and is either pending or its last update is the true sum of its peer and local contributions. |
| Progress.UpdatesRiseAndKeepDistance | cutlery_remote/progress.py:237-286 | Values and maxima sent for a node never fall, value is at most maximum, and every update that neither completes the node nor was forced comes at least an interval after every earlier one. |
| Progress.EmissionGood | cutlery_remote/progress.py:266-282 | Sending the present sum of a node settles what the mirror owed for it. |
| Progress.Mirror.Aggregated | cutlery_remote/progress.py:253-264 | The loop over the peers computes the sum of the node's contributions. |
| Progress.EventCounts | cutlery_remote/progress.py:253-264 | An event puts its numbers in the place of its peer's earlier ones in the sum of that peer's node, and changes no other sum. |
| Progress.LocalCounts | cutlery_remote/progress.py:253-264 | So does local work on a node. |
| MediaCache.Cache.Write | nodes_remote.py:1213-1268 | Succeeds exactly if the item is small enough and either a matching file is there or the active files leave room, and says which of the three failed; never overwrites other content; whether or not it succeeds, what it unlinks is expired or the oldest inactive, and no more than needed; a new file leaves the cache within its limit. |
| MediaCache.Cache.Release | nodes_remote.py:1271-1279 | Gives back one handle; the file goes exactly with its last owner, unless it is to be left. |
| MediaCache.Cache.RetainForPrompt | nodes_remote.py:1282-1292 | A prompt retains a path once; the count stays the number of retaining prompts plus outstanding handles. |
| MediaCache.Cache.ReleasePrompt | nodes_remote.py:1295-1310 | Afterwards the prompt retains nothing; of what it retained, exactly the owned files stay; then only what is expired, or the oldest inactive and needed for the limit, is unlinked. |
| MediaCache.Evict | nodes_remote.py:1163-1203 | Removes what has expired, then the oldest inactive files and no more than needed; fails exactly if the active files alone exceed the limit. |
| MediaCache.EvictedOldest | nodes_remote.py:1193-1203 | The files evicted for room are the oldest inactive ones, and without the last of them the target would be exceeded. |
| MediaCache.UnexpiredExactly | nodes_remote.py:1174-1190 | A partial file expires after ten minutes, a finished one after six hours unless it is owned. |
| MediaCache.ReleaseCounted | nodes_remote.py:1271-1279 | Giving back a handle takes one off the count, and a path on its last count has no other owner. |
| MediaCache.OwnersCounted | nodes_remote.py:1153-1155 | A path is counted exactly when a prompt or a handle owns it. |
| Reroute.ResolveAll | nodes_wf3_boundary.py:869-871 | Rewriting the link table in place while reading it gives, for every table and every order, what resolving each link in the original table gives, also on cycles. |
| Reroute.EditorLinksById | nodes_wf3_boundary.py:831-871 | The same for the table read from the editor's link records. |
| Reroute.TableExactly | nodes_wf3_boundary.py:831-844 | The table has the complete link records; of several with the same id the last counts. |
| Reroute.GoesOnExactly | nodes_wf3_boundary.py:852-867 | An origin is followed further if and only if it is a Reroute with a connected input; the first such input decides where to. |
| Reroute.LoopingIsPlain | nodes_wf3_boundary.py:852-871 | A chain that runs into a cycle is resolved to the same origin in the partly rewritten table as in the original one. |
| Reroute.EndingIsPlain | nodes_wf3_boundary.py:852-871 | A chain that ends is resolved to the same origin in both. |
| Reroute.PlainFindsTheEnd | nodes_wf3_boundary.py:852-867 | A link is resolved to no Reroute, or an unconnected one, if and only if its chain ends, and that is then the end. |
| Reroute.AcyclicEnds | nodes_wf3_boundary.py:930-956 | Without cycles of Reroutes, every link that a prompt gets names no Reroute or an unconnected one. |
| Base64.RoundTrip | cutlery_remote/serialization.py:195-197 | Decoding gives back what was encoded. |
| Base64.SizeIsRight | cutlery_remote/serialization.py:77-83 | For all text that decodes, the size computed beforehand is the decoded length. |
| Base64.PayloadSizeExactly | cutlery_remote/serialization.py:77-83 | Text has a size if and only if it comes in groups of four and has at most two padding characters, at its end and nowhere else, or none at its end. |
| Base64.GroupValue | cutlery_remote/serialization.py:195-197 | Four characters stand for the same 24-bit number as their three bytes. |
| Base64.Alphabet | cutlery_remote/serialization.py:195-197 | The characters are those of table 1 of RFC 4648, in its order. |
| Serialization.BundleRoundTrip | cutlery_remote/serialization.py:195-220 | Decoding the bundle of a value gives the value back if and only if its shapes are valid and every blob fits the limit, provided digests do not collide. |
| Serialization.DecodeEncoded | cutlery_remote/serialization.py:142-192 | The same for a manifest and any store that holds its blobs. |
| Serialization.DecodedEncodes | cutlery_remote/serialization.py:86-100 | Whatever decodes, from whatever store, encodes to the same manifest again: content cannot differ from its descriptor. |
| Serialization.EncodeValue | cutlery_remote/serialization.py:142-161 | Encodes into the store: it gains exactly the value's blobs under their digests. |
| Serialization.DecodeBundle | cutlery_remote/serialization.py:200-220 | Refuses every bundle with a bad or oversized entry, and otherwise decodes the manifest from the unpacked blobs. |
| Serialization.DecodableExactly | cutlery_remote/serialization.py:96-106 | A value is decodable if and only if no dimension of its tensors is negative and no blob is larger than the limit. |
| Serialization.EntryExactly | cutlery_remote/serialization.py:212-219 | An entry is accepted if and only if it decodes to no more bytes than the limit; the size computed beforehand changes nothing of that. |
| Manifest.ValidateModelConflicts | cutlery_remote/model_preparation.py:355-364 | Refuses exactly the lists that give one destination two sizes or hashes; otherwise returns the first model of each destination, sorted. |
| Manifest.ManifestIgnoresOrder | cutlery_remote/model_preparation.py:355-373 | Lists of the same models, in any order and number, are refused alike and have the same manifest, if no destination is spelt in two ways. |
| Manifest.SpellingDependsOnOrder | cutlery_remote/model_preparation.py:363-364 | For every list that spells a destination in two ways, moving a second spelling to the front gives the same models and a different manifest. |
| Manifest.OrderIndependentExactly | cutlery_remote/model_preparation.py:355-373 | A list without conflict has the same manifest as every list of the same models if and only if it spells no destination in two ways. |
| Manifest.SortedOnce | cutlery_remote/model_preparation.py:364 | Two lists with the same elements that are both sorted under the key are equal. |
| Manifest.KeyDecides | cutlery_remote/model_preparation.py:364 | In the order of a manifest the category decides, then the name but for case, then the name. |
| Manifest.FirstDifference | cutlery_remote/model_preparation.py:364 | The first place at which two strings differ decides their order, and a string comes after its own beginnings. |
| ModelPreparation.ValidateResponse | cutlery_remote/model_preparation.py:159-207 | Succeeds if and only if the request has no conflict and the answer has exactly one fitting record for each requested destination and no other; binds each to its record in request order. |
| ModelPreparation.BoundToRecord | cutlery_remote/model_preparation.py:175-207 | Every requested model is told of by a record for its destination: present with the size and hash of the record, which fit a request, or absent as requested. |
| ModelPreparation.ResolutionsIgnoreOrder | cutlery_remote/model_preparation.py:175-207 | Answers with the same records in any order are accepted alike and give the same resolutions. |
| ModelPreparation.PrepareModels | cutlery_remote/model_preparation.py:457-493 | Succeeds if and only if there are a manifest and resolutions for the models with which every step goes well, where both are what manifest and answer determine; then every model is verified or transferred; on failure it has called for absent models up to some step and for no other. |
| ModelPreparation.PresentIsVerified | cutlery_remote/model_preparation.py:479-485 | A model reported present has been shown to be there with the local size and hash. |
| ModelPreparation.ResultsMatchDestinations | cutlery_remote/model_preparation.py:470-493 | The results are in bijection with the distinct destinations of the local models. |
| ModelPreparation.OneCallPerAbsent | cutlery_remote/model_preparation.py:486-492 | Every absent model went through exactly one call of the coordinator, and no other model did. |

## Left out

- CompilerTheorem.CompilerPreservesMeaning: assumes that no dangling link has a name that may be generated, for any group and port number; `CapturedExactly` says what happens otherwise. Blob encoding and decoding are assumed inverse to each other, and boundary values are carried unchanged (`_coerce_value` is not modelled).
- GroupCompiler.CompileGroup: the wrapper's and preparation node's literal inputs for model references, progress map and preparation manifest are not modelled, nor are the error texts; JSON text is kept as the value it denotes.
- Contract.ParsePorts: names and types are stripped and folded as ASCII; JSON text that is no list of records counts as malformed.
- GroupCompiler.RewireCopies: ports are numbered in the order in which inputs are visited; the model allows any order of a node's inputs.
- Prompts: the class types and input names that carry the machinery are constructors, all others names; input values that are not link-shaped are literals.
- EditorGroups.RemoteGroups: a group's target is what its title names; parsing of titles and bounds from raw editor data is not modelled, and coordinates are exact numbers.
- JobRegistry.LookUpFindsLiveJobs: a removal from outside is a step of the model although the source has no such call.
- Cancellation.NoCancellationLost: each prompt id belongs to one run; two runs that a client gives the same id are not modelled. Expiry and eviction of records are steps that may come at any time.
- Tombstones.Store.Record: the clock is a parameter, and the lock makes each method one step.
- Tombstones.AnswerExactly: when two calls read the same time, which of two equally old records is evicted is left open, as the order of a dictionary decides it.
- Transfers.OneTransferPerTarget: the tenth-of-a-second wake-ups of waiting threads are steps that change nothing.
- RemoteJob.OneWinner: cancellation of a caller's own coroutine, callbacks that call back into the job and wait for its cleanup, and `add_remote_prompt_id` are not modelled.
- Progress.Mirror.Ingest: numbers are exact; events handed over as ready-made `RemoteProgressEvent` objects, which the source does not validate again, and emitters that raise are not modelled.
- MediaCache.Cache.Write: the directory is a map from path to content and time; the partial file of a write, file-system errors and a concurrent process in the same directory are not modelled.
- MediaCache.Cache.Release: is called with a handle that the caller holds, as every caller in the source does.
- Serialization.DecodeEncoded: tensors are their payloads, as without PyTorch; bytes-like values are bytes; floats are exact.
- ModelPreparation.PrepareModels: the answer to a request and the outcome of each transfer are parameters; category normalisation and case folding beyond ASCII are not modelled.
- HTTP and WebSocket clients and routes, authentication, SSH, loaders, the user interface, file hashing caches, inventory and configuration: input and output around the parts above.
- The media materialisation around the cache, `collect_wf3_outputs` and the value coercions of boundary nodes: they would add easy members.
