# Lean Constellation: decisions, recovery and identity, verified

This project models the parts of Lean Constellation that decide and control: the batch driver that advances a project
by one durable POST at a time, the deciders it asks, the watcher that wakes it, the flow tree it reads, and the Admin
operations that change state across repositories. The proofs are about every input, every interleaving or every run,
not about examples.

| files | part |
|---|---|
| `Ordering`, `Filtering`, `Collections` | Python's string order and `sorted`; list comprehensions under reordering; shared facts |
| `Frontier`, `FrontierLaws` | `decide` and `decide_execution` |
| `FrontierFields`, `PreparationLaws`, `ExecutionLaws` | exactly when each of their answers is given, in the snapshot's fields |
| `AdvanceProtocol`, `AdvanceSite` | `Client.advance` as a step system with crashes, and as straight-line code |
| `Watcher` | `wait_batch` and its state file |
| `FlowForest`, `FlowForestLaws`, `FlowViews` | printing the flow tree and reading it back |
| `Base64Url`, `JsonText`, `LiveCursor`, `CursorLaws`, `DeltaStream`, `LiveView` | the live cursor, byte for byte, and the polls that feed it back |
| `ConsumedFailures` | the closure of consumed failures before a provider switch |
| `Strings`, `AgentTypes`, `AgentTypeLaws` | `str.strip`; agent type inheritance, the registry check, derived test types |
| `RequirementRename`, `RequirementRenameLaws` | changing a requirement across repositories |
| `RecoveryBoundary` | the two recovery boundaries and their compensator |
| `RepoRoots`, `RepoLocks`, `RepoLockLaws`, `RepoLockCircles`, `RepoLockProgress`, `PaddedKeys` | the guard that locks several repositories |
| `CoordinatorReset` | retrying an incomplete Coordinator |
| `PathPolicy`, `PathRules` | the ordered path classifier, and the table of roots it amounts to |

Code that computes (the deciders, the tree recursion, the codecs, the path policy) is written as functions with lemmas.
Code that changes things step by step (the driver's site, the watcher's loop, the flow finder, the closure loop, the
registry walks, the requirement update, the recovery boundaries, the lock guard, the reset) is written as methods and
classes with loops, each proved against a specification function or a declarative postcondition. The advance protocol
and the lock guard are also written as step systems, because their properties are about every interleaving.

## What the proofs found

Some properties one would expect of the code do not hold on every input. For each the code is kept as it is, a lemma
gives an input on which the property fails, and another says exactly when it holds or,
for two successful resets, what holds instead.

- `decide` gives the same disposition under every order of flows and steps, but not the same action: it takes the first
  startable agent and the last runnable flow. The action is independent of order exactly when all candidates are one
  body (`DecideActionIgnoresOrderIff`, `DecideActionDependsOnOrder`). `decide_execution` is independent of order in both.
- A live cursor whose status holds a high surrogate followed by a low one as separate code points comes back with the
  two joined. It round-trips exactly when there is no such pair (`CursorRoundTripIff`, `SplitPairDoesNotRoundTrip`).
- A requirement is looked up by file name, but the rewrite of references is triggered by comparing stored names. When a
  file moves to the name that is already stored in it, references to the old file name dangle (`ReferencesKeptIff`,
  `UnnoticedMoveBreaksAReference`).
- For the same reason a file stored under another name escapes the interface and route check
  (`UnmatchedNameHidesAConflict`). After a commit all groups agree exactly if the replacement is not listed as OPEN, or
  fits itself and the OPEN requirements that are left for its target (`GroupsAgreeAfterIff`); the check ensures that
  whenever the stored name singles out the file (`UpdateKeepsGroupsAgreeing`).
- The compensator compares with the round the preview saw, looks it up by the id stored in it and insists on the node
  path stored in it; reopening reads the round again and checks only its failure marker. A round that got a summary in
  between, or that names another node, is reopened and never taken back (`LateSummaryIsNotRestored`,
  `ChangedRoundStaysReopened`, `RenamedNodeStaysReopened`; exactly when it is restored: `RoundsRestoredIff`).
- Two mutations of one repository can run at once: a lane belongs to the runtime that is selected, and the runtime
  selected for a root changes when the repository is loaded (`LoadingLetsTwoBodiesMeet`). Two calls exclude each other
  exactly if they share a record lock or a lane of one component (`BodiesMeetIff`).
- Record locks are taken in the order of the sorted roots, but a lock belongs to the record of the stripped name. A
  publication of "a" and " b" locks b before a, one of "a" and "b" a before b, and the two can wait for each other
  forever (`PaddedKeyCircularWait`, `CircleForever`). A circular wait can be reached exactly if the lists of locks are tangled
  (`CircularWaitIff`), and exactly otherwise all threads can always finish (`FinishIff`); names without surrounding
  white space never tangle (`NoCircularWait`).
- A reset whose edit fails leaves its new agent open exactly if closing it fails too (`FailureLeavesNothing`).
- A reset can succeed twice for the same flow, step and agent if something else binds the flow to the old agent again,
  as restoring a snapshot does (`RestoringAllowsAnother`). There is at most one success more than times that happens,
  and that bound is reached for every number (`SuccessesBounded`, `BoundIsReached`).

## Model

| member | source | states |
|---|---|---|
| Ordering.SortedMembers | src/lean_constellation/app/provider_switch.py:43 | `sorted` over distinct strings: ascending by code point, every member once |
| FrontierLaws.DecideDispositionIgnoresOrder | scripts/batch_preparation.py:147-197 | every reordering of a snapshot's flows and steps gets the same disposition from `decide` |
| FrontierLaws.DecideTakesACandidate | scripts/batch_preparation.py:180-197 | an action of `decide` is one of the bodies the frontier offers |
| FrontierLaws.EveryCandidateIsTaken | scripts/batch_preparation.py:180-197 | each offered body is the action under some order of the same snapshot |
| FrontierLaws.DecideActionIgnoresOrderIff | scripts/batch_preparation.py:180-197 | the action is the same under every order exactly when all candidates are one body |
| FrontierLaws.DecideActionDependsOnOrder | scripts/batch_preparation.py:180-182 | a snapshot with two startable agents whose action changes with the order |
| FrontierLaws.PreparationNeverTouchesCoordinator | scripts/batch_preparation.py:149-182 | a preparation advance needs a paused idle runtime, no active lease, and no Coordinator step live or ever started |
| FrontierLaws.PreparationActionNamesItsFrontier | scripts/batch_preparation.py:176-197 | an agent action names a created preparation agent; a logic action needs none of them, and no unidentified agent |
| FrontierLaws.PreparationAdvancesFromHealthyFlows | scripts/batch_preparation.py:155-166 | no preparation advance while any flow is foreign, failed, suspended, paused or stuck at its current step |
| PreparationLaws.PreparedIff | scripts/batch_preparation.py:147-175 | `prepared` exactly when nothing stands against preparing, the sole pending step is an unstarted created Coordinator, and the gate's five types are completed |
| PreparationLaws.PreparationHoldIff | scripts/batch_preparation.py:147-197 | which hold `decide` gives, and exactly when, in the snapshot's fields |
| PreparationLaws.PreparationAgentIff | scripts/batch_preparation.py:149-182 | `decide` posts a step exactly when it is the first created preparation agent and no guard of the snapshot fails |
| PreparationLaws.PreparationLogicIff | scripts/batch_preparation.py:149-197 | `decide` posts a scope exactly when no agent is left to start, for the last Coordinator whose three discoveries are done, else the last created or running flow |
| FrontierLaws.DecideExecutionIgnoresOrder | scripts/batch_preparation.py:225-320 | reordering flows and steps changes neither disposition nor action of `decide_execution` |
| FrontierLaws.ExecutionHasOneCoordinator | scripts/batch_preparation.py:237-252 | an execution advance has exactly one live Coordinator flow, not paused, suspended or stuck, in the phase its persisted state names |
| FrontierLaws.ExecutionAgentActionNamesTheOnlyStep | scripts/batch_preparation.py:265-309 | an agent action names the only live step: created, unstarted, and a Coordinator or a Resource Curator |
| FrontierLaws.ExecutionLogicNeedsNoAgentStep | scripts/batch_preparation.py:310-320 | a logic action runs only with no live agent step, in the scope of the one live Coordinator; when it must be given is `ExecutionLogicIff` |
| FrontierLaws.ExecutionBatchCarriesItsIdentity | scripts/batch_preparation.py:274-289 | a content batch carries repo, flow, submission and dispatch of the one live Coordinator's pending dispatch |
| FrontierLaws.ReviewedLeaseAdmitsOnlyParentLogic | scripts/batch_preparation.py:231-260 | with a review pending, only the parent's logic action for exactly the acknowledged terminal manual-pause lease |
| ExecutionLaws.ExecutionHoldIff | scripts/batch_preparation.py:225-243 | which hold `decide_execution` gives, and exactly when; `ready` exactly when the runtime is idle, published, every flow completed, no step pending and a pending review acknowledged |
| ExecutionLaws.ExecutionAgentIff | scripts/batch_preparation.py:225-309 | an agent action is given exactly when the one step of the sole healthy Coordinator, or of the Resource Curator of its sole awaited child, is created and unstarted |
| ExecutionLaws.ExecutionLogicIff | scripts/batch_preparation.py:225-320 | a logic action is given exactly when no agent step is live and the Coordinator's phase is one that goes on by itself, in a resource phase with its request conditions |
| ExecutionLaws.ExecutionBatchIff | scripts/batch_preparation.py:225-289 | a content batch is given exactly when the Coordinator is in a content phase with a complete pending dispatch, and carries its identity |
| AdvanceProtocol.EveryRunKeepsInv | scripts/batch_preparation.py:41-56 | in every interleaving of any number of drivers, with crashes at any step, the receipt on disk, the lock and the history agree |
| AdvanceProtocol.OneDriverInside | scripts/batch_preparation.py:48-56 | at most one driver is ever inside the lock |
| AdvanceProtocol.EveryPostIsJustified | scripts/batch_preparation.py:118-136 | each POST follows a durable `posting` receipt with exactly its body, written under the same lock by the same driver, and the body is the decider's answer to two snapshots taken under that lock |
| AdvanceProtocol.EarlierPostsAcknowledged | scripts/batch_preparation.py:123-144 | every POST except possibly the last was acknowledged before the next one was issued |
| AdvanceProtocol.StoppedForever | scripts/batch_preparation.py:123-124 | once the receipt is held and nobody inside can still post, the log of POSTs never grows again |
| AdvanceProtocol.NoPostAfterUncertainty | scripts/batch_preparation.py:135-141 | after a POST whose outcome is open (failed, or the driver died before the acknowledgement) no driver ever issues another |
| AdvanceProtocol.PostedForSnapshot | scripts/batch_preparation.py:121-136 | every POST carries the decider's answer for a snapshot its driver took under the lock |
| AdvanceProtocol.PostsSeeOneFrontier | scripts/batch_preparation.py:121-135 | before every POST of every run, both looks under the lock are complete and show one live instance, one lease, the answer posted and, for an execution driver, one Coordinator state; the receipt names that instance |
| AdvanceProtocol.StepsInOrder | scripts/batch_preparation.py:118-144 | a move that changes anything is the driver's next step, changes no other driver's stage, and only leaving or dying frees the lock |
| AdvanceProtocol.ReadingsTold | scripts/batch_preparation.py:81-115 | a snapshot is `unavailable` exactly if something could not be read, and `not_loaded` exactly if the repository is not loaded |
| AdvanceProtocol.PreparationPostsAvoidCoordinator | scripts/batch_preparation.py:118-182 | in every run, a preparation driver never posts while a Coordinator agent step is live or has started |
| AdvanceProtocol.ExecutionPostsNameTheirFrontier | scripts/batch_preparation.py:118-320 | in every run, a posted agent action names the only live step, created and unstarted, and a posted logic action has no live agent step |
| AdvanceSite.AdvanceCarriesAction | scripts/batch_preparation.py:83-114 | a snapshot with disposition `advance` always carries the action that `advance` indexes |
| AdvanceSite.Site.Advance | scripts/batch_preparation.py:118-144 | an uninterrupted call is a run of the protocol; each outcome exactly when its condition on the readings' fields holds, `frontier_changed` when instance, answer, lease or Coordinator state differ; receipt and at most one POST accordingly |
| Watcher.StateFile.WaitBatch | scripts/batch_preparation.py:368-397 | one call's events, snapshots, pending projects, time-out and new state, as functions of the old state and what was observed |
| Watcher.Consume | scripts/batch_preparation.py:377-388 | one observation updates the mark of its project and appends its events |
| Watcher.CallsCompose | scripts/batch_preparation.py:340-393 | observing A, persisting, then B reports the same events and leaves the same state as A and B in one call |
| Watcher.CuttingIsInvisible | scripts/batch_preparation.py:340-393 | however observations are cut into calls, the event stream is the same |
| Watcher.ReportsExactly | scripts/batch_preparation.py:380-387 | after any history, a restart exactly if a known instance differs from the last one known; else the disposition exactly if not active and unlike the last observation |
| Watcher.NextLookReports | scripts/batch_preparation.py:334-388 | the second of two successive observations of a project reports a restart, or its disposition exactly if that is not active and instance, disposition, action, lease id or error differs |
| Watcher.MarkHolds | scripts/batch_preparation.py:388-389 | the mark of a project holds the last instance known and the lease version of its last observation |
| Watcher.ProjectsKeptApart | scripts/batch_preparation.py:379 | observations of different servers or repositories have different keys, if no repository key has a slash |
| Watcher.RestartSeenAcrossGap | scripts/batch_preparation.py:381-387 | across any number of observations without an instance, a restart is seen exactly if the instance changed |
| Watcher.RepeatIsSilent | scripts/batch_preparation.py:384-388 | a repeated snapshot reports nothing and changes no state, whatever was seen of other projects in between |
| Watcher.RestartsAreChanges | scripts/batch_preparation.py:382-387 | over any run, the restarts reported for a project are as many as the changes in the instances it gave |
| Watcher.ShownOrPending | scripts/batch_preparation.py:394-396 | every project is shown or pending, never both, and pending exactly if nothing of it was observed |
| Watcher.LatestIsLast | scripts/batch_preparation.py:377-394 | the snapshot shown for a project is the last one observed |
| FlowForest.AncestryBound | src/lean_constellation/app/admin_api.py:5370-5378 | a parent chain is never longer than the list: why rendering terminates on arbitrary parent pointers |
| FlowForest.IndexFlows | src/lean_constellation/app/admin_api.py:3434-3442 | the index holds exactly the children of each listed parent and the roots, in list order |
| FlowForest.ListFlowTree | src/lean_constellation/app/admin_api.py:3420-3458 | the printed tree with its counts, for any list of flows with distinct ids |
| FlowForest.FlowFinder.VisitValue | scripts/batch_preparation.py:61-69 | the walk fills the dict as the recursive specification does, later records replacing earlier ones in place |
| FlowForest.FlowRecords | scripts/batch_preparation.py:59-71 | the records found in a response, in the order of first occurrence |
| FlowForestLaws.PreorderCounts | src/lean_constellation/app/admin_api.py:5370-5378 | a subtree holds exactly the flows whose chain passes through its root, each once |
| FlowForestLaws.ShownOnceIffRooted | src/lean_constellation/app/admin_api.py:3434-3446 | a flow is shown once if its parent chain leaves the list, and not at all otherwise |
| FlowForestLaws.ShownDistinct | src/lean_constellation/app/admin_api.py:3443-3446 | the forest shows no flow twice |
| FlowForestLaws.CyclesAreDropped | src/lean_constellation/app/admin_api.py:3437-3442 | flows whose parents stay inside one set, such as a cycle and what hangs from it, are never shown |
| FlowForestLaws.SiblingsInCreationOrder | src/lean_constellation/app/admin_api.py:5371-5374 | siblings and roots appear by creation time, then id |
| FlowForestLaws.StepNeverShadowsFlow | scripts/batch_preparation.py:63-64 | a nested step record, which has a flow id but no flow type, changes nothing |
| FlowForestLaws.FlatteningReturnsTheShownFlows | scripts/batch_preparation.py:59-71 | flattening the printed tree lists exactly the shown flows, in preorder |
| FlowForestLaws.FlatteningIsExact | scripts/batch_preparation.py:59-71 | a record comes back exactly if it is the view of a flow whose parent chain leaves the list |
| FlowViews.ViewRoundTrip | src/lean_constellation/app/admin_api.py:5380-5408 | reading a printed view by the names of its fields gives the flow record back, steps and all |
| FlowViews.RecordsAreTheShownFlows | scripts/batch_preparation.py:59-71 | the records read from the printed tree are exactly the shown flows that have an id and a type, in the order shown |
| FlowViews.ParentIff | src/lean_constellation/app/admin_api.py:3434-3442 | a flow is a child of another exactly if it names its id and the list has a flow of that id |
| FlowViews.NodeHolds | src/lean_constellation/app/admin_api.py:5370-5378 | a node holds the view of its flow and one node for each child |
| FlowViews.PutReplacesInPlace | scripts/batch_preparation.py:64 | assigning a key keeps its place in the dict, a new key comes last |
| Base64Url.EncodeDecode | src/lean_constellation/app/admin_api.py:5825-5831 | decoding encoded bytes gives the bytes back, for all byte strings; the encoding is ASCII, which decoding insists on |
| Base64Url.EncodeIsBodyPlusPadding | src/lean_constellation/app/admin_api.py:5825 | the encoding is the digits of all bits followed by the padding their number calls for |
| Base64Url.PaddingRestored | src/lean_constellation/app/admin_api.py:5825-5830 | stripping the padding and adding `-len % 4` signs restores the encoding exactly |
| Base64Url.EncodedNotEmpty | src/lean_constellation/app/admin_api.py:3870 | something to encode never strips to the empty text, which would read as no cursor |
| JsonText.StringRoundTrip | src/lean_constellation/app/admin_api.py:5824-5831 | a written string literal reads back as the string with its adjacent surrogate halves joined |
| JsonText.JoinedIff | src/lean_constellation/app/admin_api.py:5824-5831 | joining changes a string exactly if a high surrogate is followed by a low one |
| JsonText.NumberRoundTrip | src/lean_constellation/app/admin_api.py:5824-5831 | a written count reads back as the same integer |
| JsonText.EntriesRoundTrip | src/lean_constellation/app/admin_api.py:5824-5831 | written members read back with the same keys and values in order |
| JsonText.DictRoundTrip | src/lean_constellation/app/admin_api.py:5824-5831 | loading a dumped dict of counts and strings gives its members back |
| LiveCursor.CursorRoundTrip | src/lean_constellation/app/admin_api.py:5822-5841 | for all counts and any status, decoding an encoded cursor gives the counts back and the status with its surrogate halves joined |
| LiveCursor.CursorRoundTripIff | src/lean_constellation/app/admin_api.py:5822-5841 | the cursor comes back unchanged exactly if its status has no high surrogate followed by a low one |
| LiveCursor.SplitPairDoesNotRoundTrip | src/lean_constellation/app/admin_api.py:5824-5831 | a status that comes back changed |
| LiveCursor.CursorNotEmpty | src/lean_constellation/app/admin_api.py:3870 | an issued cursor is never the empty text, so it is always decoded when fed back |
| CursorLaws.Utf8Iff | src/lean_constellation/app/admin_api.py:5831 | strict decoding accepts exactly the UTF-8 encodings of texts without surrogate halves, and gives those texts |
| CursorLaws.PayloadIff | src/lean_constellation/app/admin_api.py:5831-5851 | a payload is accepted exactly if it is a dict of version 1 whose last members of each name are four counts and a text, and gives them |
| CursorLaws.DecodesIff | src/lean_constellation/app/admin_api.py:5828-5851 | a cursor decodes exactly if it is the Base64 of the UTF-8 of the JSON of such a payload |
| DeltaStream.DeltaIsNewest | src/lean_constellation/app/admin_api.py:3930-3932 | each poll delivers exactly the newest min(cap, new) items, in order |
| DeltaStream.DeltasDeliverOnce | src/lean_constellation/app/admin_api.py:3905-3932 | over any run on an append-only log no position is delivered twice |
| DeltaStream.DeltasAddUp | src/lean_constellation/app/admin_api.py:3905-3932 | if no poll exceeds its cap, the concatenated deltas are the whole log |
| LiveView.PollAfterCursor | src/lean_constellation/app/admin_api.py:3869-3940 | a cursor fed back selects exactly what was appended since it was issued |
| LiveView.PollsDeliverDeltas | src/lean_constellation/app/admin_api.py:3869-3940 | every run of polls through the real cursors succeeds and delivers the three delta streams |
| LiveView.EverythingDeliveredOnce | src/lean_constellation/app/admin_api.py:3904-3933 | on append-only logs no turn, event or tool call is delivered twice, and each poll gets the newest of the new ones |
| LiveView.TurnsAddUp | src/lean_constellation/app/admin_api.py:3930 | within the cap of 50 the delivered turns together are the whole log |
| LiveView.EventsAddUp | src/lean_constellation/app/admin_api.py:3910-3911 | within the cap of 100 the delivered events together are the whole log |
| LiveView.ToolCallsAddUp | src/lean_constellation/app/admin_api.py:3932 | within the cap of 50 the delivered tool calls together are the whole log |
| LiveView.TimedOutActivityPollIsEmpty | src/lean_constellation/app/admin_api.py:3889-3904 | an activity poll that timed out delivers nothing |
| LiveView.QuietPollTimesOutIff | src/lean_constellation/app/admin_api.py:3889-3904 | a poll that finds what its cursor was issued for times out, exactly unless the status holds a split surrogate pair |
| LiveView.TimesOutIff | src/lean_constellation/app/admin_api.py:3889-3904 | what each kind of wait waits for: status; status and finished turns; or also turns, events and tool calls |
| LiveView.PollWithoutCursor | src/lean_constellation/app/admin_api.py:3869-3932 | without a cursor, or with an empty one, a poll starts from the beginning and never times out |
| LiveView.PollFailsIff | src/lean_constellation/app/admin_api.py:3869-3876 | a poll fails exactly on a non-empty cursor that does not decode |
| ConsumedFailures.StartHistory | src/lean_constellation/app/provider_switch.py:19-36 | the loop collects exactly the completed flows and the directly consumed failures |
| ConsumedFailures.CloseHistory | src/lean_constellation/app/provider_switch.py:38-43 | the closing loop terminates in the least set closed under failed children |
| ConsumedFailures.ConsumedFailedChildren | src/lean_constellation/app/provider_switch.py:15-43 | exactly the failed flows whose chain of failed ancestors reaches a consumed flow or a completed parent, sorted |
| ConsumedFailures.ConsumedIsLeastClosed | src/lean_constellation/app/provider_switch.py:37-43 | that set is closed, and inside every closed set |
| ConsumedFailures.ConsumedIff | src/lean_constellation/app/provider_switch.py:20-43 | a flow is consumed exactly directly, by a completed parent, or through a consumed parent |
| ConsumedFailures.DirectlyConsumedIff | src/lean_constellation/app/provider_switch.py:20-36 | a failure is directly consumed exactly if a completed, submitted callback step of its Coordinator from exactly its dispatch has another outcome than an incomplete one |
| ConsumedFailures.AwaitedChildIsNotConsumed | src/lean_constellation/app/provider_switch.py:23-27 | a failed child of the dispatch a non-terminal Coordinator still waits for is never returned |
| Strings.StripTakesEnds | src/lean_constellation/agents/models.py:63-74 | stripping takes white space off both ends of a name and nothing else |
| AgentTypes.DedupeList | src/lean_constellation/agents/models.py:63-74 | the loop returns the stripped, non-blank, first occurrences |
| AgentTypes.DedupeKeepsNames | src/lean_constellation/agents/models.py:63-74 | no blank, no repetition, and exactly the stripped non-blank values |
| AgentTypes.DedupeKeepsOrder | src/lean_constellation/agents/models.py:63-74 | values stay in the order of their first occurrence |
| AgentTypes.DedupeIdempotent | src/lean_constellation/agents/models.py:63-74 | validating validated lists changes nothing |
| AgentTypes.ValidatedIsValid | src/lean_constellation/agents/models.py:63-88 | construction succeeds exactly on data it can normalise, never on a self-extension, and keeps a valid spec as it is |
| AgentTypes.AliasesOfValid | src/lean_constellation/agents/models.py:90-101 | the aliases of a valid spec are its own name and its configured aliases |
| AgentTypes.AgentTypePermissionNames | src/lean_constellation/agents/registry.py:97-118 | the walk terminates on every registry and returns the specified names or error |
| AgentTypes.ResolveSpecs | src/lean_constellation/agents/registry.py:357-380 | accepts exactly a registry without duplicates whose every walk succeeds, and returns it unchanged |
| AgentTypes.WalkChain | src/lean_constellation/agents/registry.py:369-379 | the acceptance walk of one type terminates with the specified error or none |
| AgentTypeLaws.ChainDistinct | src/lean_constellation/agents/registry.py:109-117 | an inheritance chain that ends repeats no type |
| AgentTypeLaws.ChainGivesNames | src/lean_constellation/agents/registry.py:106-118 | a type whose chain ends gets exactly the union of the aliases along it |
| AgentTypeLaws.WalkSucceedsIffChainEnds | src/lean_constellation/agents/registry.py:109-118 | the permission walk succeeds exactly for a type whose chain ends |
| AgentTypeLaws.AcceptedIffEveryWalkSucceeds | src/lean_constellation/agents/registry.py:357-380 | a registry without duplicate names is accepted exactly if the permission walk succeeds for every registered type |
| AgentTypeLaws.TypeHasItsBasesNames | src/lean_constellation/agents/registry.py:97-118 | in an accepted registry an extending type has its own aliases and everything its base has, no more |
| AgentTypeLaws.ControlledNameIsNew | src/lean_constellation/agents/testing.py:11-16 | a derived test name is a valid name and never the base's own |
| AgentTypeLaws.ControlledNameSpelled | src/lean_constellation/agents/testing.py:11-16 | a last `Agent` of the stripped base name gives way to `ControlledTestAgent`, which is otherwise appended |
| AgentTypeLaws.BuildControlledSpecs | src/lean_constellation/agents/testing.py:19-45 | each target is served by a derived spec, an existing name, or its own extension, and nothing is derived but from a target; an unknown target is an error |
| AgentTypeLaws.OldTypesKeepNames | src/lean_constellation/agents/testing.py:19-45 | appending derived specs leaves every old type's permission set as it was |
| AgentTypeLaws.DerivedTypeNames | src/lean_constellation/agents/registry.py:76-94 | a derived type's set is its own name plus its base's set |
| AgentTypeLaws.DerivedRegistryAccepted | src/lean_constellation/agents/testing.py:19-45 | an accepted registry with all derived specs appended is accepted |
| RequirementRename.RewriteRefs | src/lean_constellation/app/admin_api.py:1806-1822 | one list of references with the old reference renamed and nothing else |
| RequirementRename.PreparationUpdates | src/lean_constellation/app/admin_api.py:1794-1825 | exactly the readable inputs that mention the old reference while the stored name changes, each rewritten |
| RequirementRename.ListRequirements | src/lean_constellation/services/repo_workspace/repo_requirement.py:243-260 | every requirement file of a repository is listed |
| RequirementRename.GroupRequirements | src/lean_constellation/app/admin_api.py:1827-1843 | each group holds exactly the OPEN requirements for its target, the replacement substituted |
| RequirementRename.InterfaceConflicts | src/lean_constellation/app/admin_api.py:1861-1878 | comparing only with the last one seen reports exactly the names under which two interfaces differ |
| RequirementRename.NoConflictIffAllAgree | src/lean_constellation/app/admin_api.py:1861-1878 | no conflict exactly if all requirements of the group agree pairwise on every interface name |
| RequirementRename.ResolvableIffCompatible | src/lean_constellation/services/repo_workspace/repo_preparation.py:82-140 | a route is found exactly if the routes of the group are pairwise compatible |
| RequirementRename.GroupBlockers | src/lean_constellation/app/admin_api.py:1848-1878 | a route conflict exactly if routes clash, an interface conflict for exactly each disputed name, nothing else |
| RequirementRename.AffectedGroupBlockers | src/lean_constellation/app/admin_api.py:1844-1878 | exactly the conflicts of the old and the new target's groups |
| RequirementRename.FlowBlockers | src/lean_constellation/app/admin_api.py:1880-1913 | if the identity changes, exactly the affected flows that are not terminal, and nothing otherwise; which flows those are is `FlowBlocksIff` |
| RequirementRename.FlowBlocksIff | src/lean_constellation/app/admin_api.py:1893-1913 | a flow blocks exactly an update of name or target, if it is not terminal and waits for the current name, resumes it or has the reference `consumer:name` |
| RequirementRename.RuntimeBlockers | src/lean_constellation/app/admin_api.py:1915-1957 | exactly what keeps a loaded consumer runtime from being at rest |
| RequirementRename.AdmissibleIffNothingRaised | src/lean_constellation/app/admin_api.py:1767-1957 | an update is admissible exactly if there is reason for no blocker |
| RequirementRename.AdmissibleIff | src/lean_constellation/app/admin_api.py:1790-1965 | what an update must satisfy, in the fields of the requirement, the flows and the runtime |
| RequirementRename.Workspace.Commit | src/lean_constellation/app/admin_api.py:2016-2041 | the new workspace: file moved, references renamed, everything else as it was |
| RequirementRename.Workspace.UpdateRequirement | src/lean_constellation/app/admin_api.py:1693-2074 | every outcome exactly when its condition holds, and nothing written unless applied |
| RequirementRenameLaws.CommitOnlyRenames | src/lean_constellation/app/admin_api.py:1806-1825 | each list of references keeps its length, all other references and contents stay |
| RequirementRenameLaws.ResolvesAfter | src/lean_constellation/app/admin_api.py:2019-2029 | after the commit exactly the new name and the other names that resolved before resolve |
| RequirementRenameLaws.ReferencesKeptIff | src/lean_constellation/app/admin_api.py:1794-2041 | every reference that resolved before resolves after exactly if no readable reference names a file moved unnoticed |
| RequirementRenameLaws.MatchingNameKeepsReferences | src/lean_constellation/app/admin_api.py:1794-2041 | with the stored name equal to the file name, references survive every rename |
| RequirementRenameLaws.UnnoticedMoveBreaksAReference | src/lean_constellation/app/admin_api.py:1820 | an admissible update after which a reference that resolved no longer does |
| RequirementRenameLaws.RequirementsConserved | src/lean_constellation/app/admin_api.py:2000-2041 | no repository gains or loses a requirement, and only the renamed one changes |
| RequirementRenameLaws.CheckedGroupIsCommitted | src/lean_constellation/app/admin_api.py:1827-1843 | if the stored name singles out the file in the consumer, the group checked is the group of the workspace after the commit |
| RequirementRenameLaws.OtherGroupsUntouched | src/lean_constellation/app/admin_api.py:1844-1846 | a commit changes no group but the old and the new target's |
| RequirementRenameLaws.UpdateKeepsGroupsAgreeing | src/lean_constellation/app/admin_api.py:1827-2041 | then an admissible update keeps every provider group of the workspace free of conflicts, whatever else is misfiled |
| RequirementRenameLaws.GroupsAgreeAfterIff | src/lean_constellation/app/admin_api.py:1827-2041 | for any update, all groups agree after the commit exactly if the replacement is not listed as OPEN, or fits itself and every OPEN requirement left for its target |
| RequirementRenameLaws.UnmatchedNameHidesAConflict | src/lean_constellation/app/admin_api.py:1838-1839 | an admissible update of a misfiled requirement after which a group disagrees |
| RecoveryBoundary.Recovery.ReopenRoundBoundary | src/lean_constellation/app/admin_api.py:4461-4484 | reopens exactly a round with the failed step's marker, not closed out, and only for the named step |
| RecoveryBoundary.Recovery.SynchronizeSharedStageParent | src/lean_constellation/app/admin_api.py:4502-4548 | moves the parent's binding from the source's agent to the replacement's, remembering it before the store writes; the effect in fields is `RecoveryMovesBinding` |
| RecoveryBoundary.Recovery.ApplyRecoveryBoundaries | src/lean_constellation/app/admin_api.py:4569-4579 | the round first, then the parent, stopping at the first failure |
| RecoveryBoundary.RecoverySucceedsIff | src/lean_constellation/app/admin_api.py:4461-4579 | a recovery succeeds exactly if the round, if any, carries the failed step's marker and is written, and the parent, if its agent changes, is a live content task of the same scope still bound to the failed agent and is written |
| RecoveryBoundary.RecoveryMovesBinding | src/lean_constellation/app/admin_api.py:4502-4548 | the named parent's bindings are its old ones with the failed step's role set to the replacement step's agent; every other parent and binding is unchanged, and all are when nothing is written |
| RecoveryBoundary.SuccessReopensRound | src/lean_constellation/services/decl_graph/strategy_round.py:739-765 | a success leaves the round running without result, reason and completion time, and everything else of it and of other rounds unchanged |
| RecoveryBoundary.Recovery.RollbackRoundBoundary | src/lean_constellation/services/decl_graph/strategy_round.py:767-819 | puts the previous round back over exactly its reopened form |
| RecoveryBoundary.Recovery.RollbackSharedStageParent | src/lean_constellation/app/admin_api.py:4550-4567 | puts the previous agent back over exactly the replacement |
| RecoveryBoundary.RollbackMovesBinding | src/lean_constellation/app/admin_api.py:4550-4567 | in any state, compensating writes exactly the previous agent over the replacement, and succeeds exactly if the update is stored and one of the two was bound |
| RecoveryBoundary.Recovery.RollbackRecoveryBoundaries | src/lean_constellation/app/admin_api.py:4581-4592 | both rollbacks are attempted, failures collected |
| RecoveryBoundary.CompensationsAreIndependent | src/lean_constellation/app/admin_api.py:4581-4592 | neither rollback depends on how the other ends |
| RecoveryBoundary.ParentRestored | src/lean_constellation/app/admin_api.py:4502-4592 | wherever applying fails, also in a write that is stored but reported as failed, the parent ends exactly as it was |
| RecoveryBoundary.RoundsRestoredIff | src/lean_constellation/services/decl_graph/strategy_round.py:739-819 | whatever was written between preview and recovery, and from every failure point: the rounds end as they were exactly if what reopening wrote is the previewed round reopened and that round is filed under its own names, or nothing was written and those names do not lead to its reopened twin |
| RecoveryBoundary.RoundWrittenIff | src/lean_constellation/services/decl_graph/strategy_round.py:739-765 | reopening changes a file exactly under the guards of the boundary, the marker, the closeout and the existing file |
| RecoveryBoundary.EverythingRestored | src/lean_constellation/app/admin_api.py:4457-4592 | everything is restored and no failure reported exactly if there is no round, or the previewed round is filed under its own names and, if reopening wrote, was reopened as previewed |
| RecoveryBoundary.RenamedNodeStaysReopened | src/lean_constellation/services/decl_graph/strategy_round.py:777-798 | a round that names another node than the one it was looked up by stays reopened, and the failure is reported |
| RecoveryBoundary.ChangedRoundStaysReopened | src/lean_constellation/services/decl_graph/strategy_round.py:800-813 | a round whose other content changed after the preview is reopened, stays so, and the failure is reported |
| RecoveryBoundary.LateSummaryIsNotRestored | src/lean_constellation/services/decl_graph/strategy_round.py:639-677 | a summary recorded between preview and recovery is enough, though every write succeeds |
| RecoveryBoundary.BindingsNeverOverwritten | src/lean_constellation/app/admin_api.py:4557-4565 | in any state, a binding is written only over the replacement agent, only back to the previous one, and no other field |
| RecoveryBoundary.RoundsNeverOverwritten | src/lean_constellation/services/decl_graph/strategy_round.py:800-819 | in any state, a round is written only over exactly what reopening wrote |
| RecoveryBoundary.NoFailureMeansRestored | src/lean_constellation/app/admin_api.py:4581-4592 | if no failure is reported, previous binding and round are in place, whatever happened in between |
| RecoveryBoundary.CompensationIsIdempotent | src/lean_constellation/app/admin_api.py:4550-4592 | compensating again changes nothing |
| RepoRoots.AddNamed | src/lean_constellation/app/admin_api.py:1530-1573 | exactly the roots one argument names: its path, or the attributes that name roots, alone or under a workspace |
| RepoRoots.MutationRoots | src/lean_constellation/app/admin_api.py:1527-1585 | the roots the arguments name, or those of the known flows if none is named; each once, ascending |
| RepoRoots.RecordNameIff | src/lean_constellation/app/repo_runtime_registry.py:113-136 | a root has a record exactly if it is a directory directly below the workspace whose stripped name is a plain name |
| RepoRoots.PlainLocksAscend | src/lean_constellation/app/admin_api.py:1477-1489 | if no root has a name with surrounding white space, the records of sorted roots are locked in ascending order, each once |
| RepoLocks.EveryRunKeepsInv | src/lean_constellation/app/admin_api.py:1445-1466 | in every interleaving of threads with any lists of locks and lanes, who holds a lock or lane is what the threads' own progress says |
| RepoLockCircles.CircularWaitIff | src/lean_constellation/app/admin_api.py:1445-1449 | threads can come to wait in a circle exactly if their lists are tangled: some ring of threads can have entered disjoint prefixes, each next wanting a lock the following one has |
| RepoLockCircles.NoCircularWait | src/lean_constellation/app/admin_api.py:1437-1449 | any number of threads, no root of which has a name with surrounding white space, never reach a circular wait |
| PaddedKeys.PaddedKeyReversesLocks | src/lean_constellation/app/repo_runtime_registry.py:113-136 | the sorted roots of repositories "a" and " b" lock b before a, those of "a" and "b" lock a before b |
| PaddedKeys.PaddedKeyCircularWait | src/lean_constellation/app/admin_api.py:1445-1449 | two publications of the same two repositories, one with a padded key, come to wait for each other |
| RepoLockProgress.SomebodyCanMove | src/lean_constellation/app/admin_api.py:1445-1466 | while any thread is inside and none wait in a circle, some move makes progress |
| RepoLockProgress.MovesAreBounded | src/lean_constellation/app/admin_api.py:1445-1466 | however threads interleave, they make no more moves than a bound fixed at the start |
| RepoLockProgress.CircleForever | src/lean_constellation/app/admin_api.py:1445-1449 | threads that wait in a circle do so for ever, whatever the others do |
| RepoLockProgress.FinishIff | src/lean_constellation/app/admin_api.py:1445-1475 | from wherever a run has got to all threads can still finish, exactly if their lists are not tangled |
| RepoLockLaws.BodyHoldsEverything | src/lean_constellation/app/admin_api.py:1445-1466 | the body runs only with every lock and every maintenance lane held by its own thread |
| RepoLockLaws.BodiesExclude | src/lean_constellation/app/admin_api.py:1445-1466 | two threads that share a record lock, or the lane of a root in one runtime's component, are never in their bodies together |
| RepoLockLaws.BodiesMeetIff | src/lean_constellation/app/admin_api.py:1445-1466 | two threads can be in their bodies together exactly if they share neither |
| RepoLockLaws.LoadingLetsTwoBodiesMeet | src/lean_constellation/app/admin_api.py:1491-1525 | a root guarded before it has a record, and again after it was loaded: two bodies on one root |
| RepoLockLaws.ExitReleasesAll | src/lean_constellation/app/admin_api.py:1445-1475 | a thread that has left, by any exit, holds nothing |
| RepoLocks.AdminGuard.RunMutation | src/lean_constellation/app/admin_api.py:1437-1475 | the body runs exactly if every root has a runtime, a free lane in its component and a clear interlock, holding the record locks of its roots in order; every exit leaves nothing held |
| CoordinatorReset.Runtime.EditFlow | src/lean_constellation/app/coordinator_recovery.py:51-59 | the edit is stored exactly if the second check and the commit succeed, and otherwise not at all |
| CoordinatorReset.Runtime.ResetIncompleteCoordinator | src/lean_constellation/app/coordinator_recovery.py:9-65 | one attempt, as a function of the world and the services' answers |
| CoordinatorReset.ResetSucceedsIff | src/lean_constellation/app/coordinator_recovery.py:9-59 | an attempt succeeds exactly if the three named records are at the failed callback, nothing runs and every service answers |
| CoordinatorReset.SuccessChangesOnly | src/lean_constellation/app/coordinator_recovery.py:49-65 | a success changes status, error, finish time, phase and binding of one flow, and binds a new idle agent |
| CoordinatorReset.FailureLeavesNothing | src/lean_constellation/app/coordinator_recovery.py:40-62 | every failure leaves flows and steps unchanged, and no additional agent open exactly unless the edit and closing the new agent both failed |
| CoordinatorReset.RetryAfterFailure | src/lean_constellation/app/coordinator_recovery.py:40-62 | after a failed attempt another one is accepted exactly if it would have been before |
| CoordinatorReset.SuccessesBounded | src/lean_constellation/app/coordinator_recovery.py:19-59 | over any sequence of attempts, whatever happens in between, at most one success more than times the flow was taken back |
| CoordinatorReset.BoundIsReached | src/lean_constellation/app/coordinator_recovery.py:19-59 | no smaller bound holds: n attempts can succeed with the flow taken back n - 1 times |
| CoordinatorReset.AtMostOneSuccess | src/lean_constellation/app/coordinator_recovery.py:19-59 | over any sequence of attempts, and other activity that never binds the old agent again, at most one succeeds |
| CoordinatorReset.RestoringAllowsAnother | src/lean_constellation/app/coordinator_recovery.py:19-59 | without that condition two attempts can succeed |
| PathPolicy.PortableIff | src/lean_constellation/repo_path_policy.py:108-147 | portable exactly if no legacy root, ignore root, Git, build root or last part excludes the path |
| PathPolicy.SuffixIsPyc | src/lean_constellation/repo_path_policy.py:137 | the suffix test holds exactly for a name that ends in `.pyc` and has something before it |
| PathPolicy.IgnoreRootsHoldNothingPortable | src/lean_constellation/repo_path_policy.py:96-147 | whatever is at or below a managed ignore root is neither publishable nor marked for migration |
| PathPolicy.ManagedRootsAreAccepted | src/lean_constellation/repo_path_policy.py:150-159 | the check on the managed roots never raises |
| PathPolicy.PortableAbove | src/lean_constellation/repo_path_policy.py:108-147 | if an extension is portable, the path is, exactly unless its own last part excludes it |
| PathPolicy.SubtreeKeepsClass | src/lean_constellation/repo_path_policy.py:122-134 | everything below a legacy, view, restructure, Git or runtime path has its class, whatever it is named |
| PathPolicy.WorkKeepsClass | src/lean_constellation/repo_path_policy.py:162-211 | below a lifecycle directory of the work area the class stays, below a family the kind too |
| PathPolicy.BelowKeepsClass | src/lean_constellation/repo_path_policy.py:108-211 | below a nonportable path everything has its class or is a secret or a build artifact |
| PathPolicy.TextIdentifiesPath | src/lean_constellation/repo_path_policy.py:121 | the text recorded in a classification determines the path |
| PathRules.ClassIsMostSpecific | src/lean_constellation/repo_path_policy.py:67-211 | the ordered tests give a path the class and kind of the longest root of the table it is at or below, unless the name of a secret or build artifact decides |
| PathRules.NoRuleMeansPortable | src/lean_constellation/repo_path_policy.py:122-147 | a path below no root of the table is portable, unless its names decide |
| PathRules.SomeMostSpecific | src/lean_constellation/repo_path_policy.py:122-211 | if any root applies, a longest one does |
| PathRules.RefusedIff | src/lean_constellation/repo_path_policy.py:113-119 | refused exactly if absolute, empty or with a part that is empty, a dot name or holds a backslash or NUL |
| PathRules.MigrationIff | src/lean_constellation/repo_path_policy.py:63-84 | migration is required exactly for an accepted path at or below a legacy root |

## Left out

- The flow, step, agent, schedule, pause and provider-switch services of the agent runtime kit, and the repository,
  declaration-graph and snapshot services beyond what is cited above: their contracts appear as parameters.
- HTTP plumbing, monitor views, prompt text, provider options, the registry's own table of specs: only easy members.
- The network, clocks, threads that observe, SHA-256 (an injective identity), temporary files behind an atomic replace.
- The reading of persisted Coordinator state (`read_coordinator_state`): the state is part of a snapshot.
- AdvanceProtocol.EveryPostIsJustified: the file lock is one per state directory and identity, and external writers of the receipt are excluded.
- AdvanceSite.Site.Advance: the receipt's project, time stamp and error text are not modelled; they are never read back.
- Watcher.StateFile.WaitBatch: which observations are taken before the call returns is a parameter, since only the clock decides it; reading back what was written is taken to be exact.
- FlowForest.ListFlowTree: the scope and terminal filters only choose the list; view fields other than ids, type, scope, status, parent, creation time and steps are left out.
- FlowForest.FlowRecords: flow ids are strings.
- JsonText.DictRoundTrip: other texts are read as `json.loads` reads them, but which of them it accepts is not characterised; the same holds for Base64 text that was not written here.
- LiveCursor.CursorRoundTrip: cursors that Python's digit limit or recursion limit would refuse, and a version written as 1.0, are treated as any other malformed cursor.
- LiveView.PollsDeliverDeltas: logs stay within the query limits of 10,000 turns and 100,000 events and tool calls; the status wait that a service performs is not modelled.
- AgentTypeLaws.BuildControlledSpecs: for a registry whose names are distinct, as an accepted one's are.
- RequirementRename.Workspace.UpdateRequirement: keys and routes are in the normal form the first checks give them, a digest stands for the requirement it was made from, and a commit is all or nothing; the reload that follows it then finds what was written.
- RequirementRenameLaws.UpdateKeepsGroupsAgreeing: stated for a stored name that singles out the file; `UnmatchedNameHidesAConflict` shows why, and `GroupsAgreeAfterIff` has no such condition.
- RecoveryBoundary.EverythingRestored: the compensator's own writes succeed and nobody else writes between applying and compensating; `BindingsNeverOverwritten`, `RoundsNeverOverwritten` and `NoFailureMeansRestored` cover the rest.
- RepoRoots.MutationRoots: joining and resolving paths, and tracing a flow or step to a root, are parameters.
- RepoLockCircles.NoCircularWait: one registry; which records are discovered is given with each call; bodies that guard further roots while holding locks, and the guard for paired restores, are not modelled.
- CoordinatorReset.Runtime.ResetIncompleteCoordinator: creating an agent either succeeds or leaves nothing, and the agent service never reuses an id.
- PathPolicy.SuffixIsPyc: `PurePath.suffix` as in Python 3.11 to 3.13; later versions treat names of leading dots differently.
