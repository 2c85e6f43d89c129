/** The two frontier deciders of `scripts/batch_preparation.py`, over the snapshot a client reads. */
module Frontier {
  import opened Ordering
  import opened Filtering

  datatype FlowStatus = Created | Running | Waiting | Suspended | Completed | Failed | OtherStatus(name: string)

  datatype StepStatus =
    | StepCreated
    | StepRunning
    | StepSuspended
    | StepCompleted
    | StepFailed
    | OtherStepStatus(name: string)

  datatype FlowType =
    | NativeRepoPreparation | NativeRepoContinuation | SourceIndexBuild | RootInterfacePreparation
    | RepoResourceDiscovery | RepoLeanProviderDiscovery | RepoMathlibRecon
    | NativeRepoCoordinator | ResourceCuration | OtherFlowType(name: string)

  /** `agent_type`, with NoAgent for a missing or empty value. */
  datatype AgentType =
    | NoAgent
    | RepoFormatDiscoveryAgent | SourceCorpusBuilderAgent | SourceCorpusReviewerAgent
    | SourceIndexBuilderAgent | SourceIndexReviewerAgent | RootInterfacePrepareAgent
    | RepoResourceDiscoveryAgent | RepoLeanProviderDiscoveryAgent | RepoMathlibReconAgent
    | CoordinatorAgent | ResourceCuratorAgent | OtherAgent(name: string)

  datatype Phase =
    | WaitingRepoExploration | CoordinatorAgentPhase | CoordinatorCallback | MarkRepoReady
    | BeforeContentTaskDispatchSnapshot | DispatchContentTasks | WaitingContentTasks | AfterContentTaskBatchSnapshot
    | BeforeResourceRequestDispatchSnapshot | DispatchResourceRequest | WaitingResourceRequest
    | AfterResourceRequestTerminalSnapshot
    | OtherPhase(name: string)

  datatype Step = Step(stepId: string, flowId: string, stepType: string, status: StepStatus, agentType: AgentType,
                       started: bool)

  datatype Flow = Flow(
    flowId: string, flowType: FlowType, status: FlowStatus, scopeId: string, phase: Option<Phase>,
    currentStepId: Option<string>, parentFlowId: Option<string>, parentDispatchStepId: Option<string>,
    manualPauseActive: bool, steps: seq<Step>)

  datatype Runtime = Runtime(paused: bool, runningStepIds: seq<string>, activeFlowAdvances: seq<string>)

  datatype LeaseStatus = LeaseActive | LeaseTerminal | OtherLeaseStatus(name: string)

  datatype TerminalReason = ManualPause | OtherReason(text: string)

  datatype Lease = Lease(leaseId: string, status: LeaseStatus, terminalReason: Option<TerminalReason>, version: nat)

  datatype DispatchKind = ContentTasks | ResourceRequest | OtherDispatch(name: string)

  datatype RequestedUse = SupportingMaterial | OtherUse(name: string)

  /** The persisted dispatch identity of one Coordinator Flow. */
  datatype CoordinatorState = CoordinatorState(
    phase: Option<Phase>, pendingDispatchKind: Option<DispatchKind>, sourceSubmissionId: Option<string>,
    sourceStepId: Option<string>, contentNodePaths: seq<string>, waitingDispatchStepId: Option<string>,
    requestedUse: Option<RequestedUse>)

  const NO_STATE := CoordinatorState(None, None, None, None, [], None, None)

  datatype Publication = ReadyPublication | StablePublication | OtherPublication(name: string)

  datatype Snapshot = Snapshot(
    repoKey: string, runtime: Runtime, flows: seq<Flow>, steps: seq<Step>, lease: Option<Lease>,
    leaseReviewRequired: bool, publication: Option<Publication>, coordinatorState: Option<CoordinatorState>)

  datatype Disposition =
    | Active | ActiveLeasePaused | NotStarted | OutsidePreparation | CoordinatorAlreadyStarted | NeedsReview
    | Prepared | CoordinatorGateIncomplete | UnknownAgent | Advance | Ready
    | NotLoaded | Unavailable | ClientError

  /** The body of one semantic-advance POST. */
  datatype Action =
    | AgentStep(stepId: string)
    | Logic(scopeId: string)
    | ContentBatch(repoKey: string, coordinatorFlowId: string, expectedSourceSubmissionId: string,
                   expectedDispatchStepId: Option<string>)

  datatype Verdict = Verdict(disposition: Disposition, action: Option<Action>)

  function Hold(d: Disposition): Verdict {
    Verdict(d, None)
  }

  function Post(a: Action): Verdict {
    Verdict(Advance, Some(a))
  }

  predicate IsPrepAgent(a: AgentType) {
    !a.NoAgent? && !a.CoordinatorAgent? && !a.ResourceCuratorAgent? && !a.OtherAgent?
  }

  predicate IsPrepFlow(t: FlowType) {
    !t.ResourceCuration? && !t.OtherFlowType?
  }

  predicate IsDiscovery(t: FlowType) {
    t.RepoResourceDiscovery? || t.RepoLeanProviderDiscovery? || t.RepoMathlibRecon?
  }

  predicate Mentions(word: string, text: string) {
    |word| <= |text| && (word == text[..|word|] || (text != "" && Mentions(word, text[1..])))
  }

  predicate Busy(r: Runtime) {
    !r.paused || r.runningStepIds != [] || r.activeFlowAdvances != []
  }

  predicate HasActiveLease(s: Snapshot) {
    s.lease.Some? && s.lease.value.status.LeaseActive?
  }

  /** The step a flow is at, found the way `next(...)` finds it. */
  function CurrentStep(steps: seq<Step>, current: Option<string>): Option<Step> {
    if steps == [] then None
    else if Some(steps[0].stepId) == current then Some(steps[0])
    else CurrentStep(steps[1..], current)
  }

  predicate CurrentStepStuck(f: Flow) {
    var current := CurrentStep(f.steps, f.currentStepId);
    current.Some? && (current.value.status.StepFailed? || current.value.status.StepSuspended?)
  }

  // ----- preparation: `decide` -----

  predicate CoordinatorStarted(flows: seq<Flow>) {
    exists f :: f in flows && exists s :: s in f.steps && s.agentType.CoordinatorAgent? && s.started
  }

  predicate Unfinished(f: Flow) {
    !f.status.Completed?
  }

  predicate Stuck(f: Flow) {
    f.status.Failed? || f.status.Suspended? || f.manualPauseActive
  }

  predicate HasForeignFlow(flows: seq<Flow>) {
    exists f :: f in flows && !IsPrepFlow(f.flowType)
  }

  predicate HasStuckFlow(flows: seq<Flow>) {
    exists f :: f in flows && Unfinished(f) && (Stuck(f) || CurrentStepStuck(f))
  }

  function CoordinatorSteps(steps: seq<Step>): seq<Step> {
    Filter((s: Step) => s.agentType.CoordinatorAgent?, steps)
  }

  predicate TypeCompleted(flows: seq<Flow>, t: FlowType) {
    exists f :: f in flows && f.status.Completed? && f.flowType == t
  }

  predicate PreparationGate(flows: seq<Flow>) {
    && TypeCompleted(flows, RepoResourceDiscovery) && TypeCompleted(flows, RepoLeanProviderDiscovery)
    && TypeCompleted(flows, RepoMathlibRecon) && TypeCompleted(flows, SourceIndexBuild)
    && TypeCompleted(flows, RootInterfacePreparation)
  }

  predicate PreparationComplete(flows: seq<Flow>, steps: seq<Step>) {
    var coordinators := CoordinatorSteps(steps);
    && |coordinators| == 1 && |steps| == 1
    && coordinators[0].status.StepCreated? && !coordinators[0].started
    && PreparationGate(flows)
    && forall f :: f in flows && Unfinished(f) ==> f.flowType.NativeRepoCoordinator?
  }

  predicate UnidentifiedAgent(s: Step) {
    (!s.agentType.NoAgent? && !IsPrepAgent(s.agentType)) || (Mentions("agent", s.stepType) && s.agentType.NoAgent?)
  }

  predicate HasUnidentifiedAgent(steps: seq<Step>) {
    exists s :: s in steps && UnidentifiedAgent(s)
  }

  function StartableAgents(steps: seq<Step>): seq<Step> {
    Filter((s: Step) => IsPrepAgent(s.agentType) && s.status.StepCreated?, steps)
  }

  function Children(flows: seq<Flow>, parent: Flow): seq<Flow> {
    Filter((f: Flow) => f.parentFlowId == Some(parent.flowId), flows)
  }

  /** A Coordinator waiting for exactly its own three discovery children, all of them completed. */
  predicate ExplorationDone(flows: seq<Flow>, f: Flow) {
    var children := Children(flows, f);
    && f.flowType.NativeRepoCoordinator? && f.status.Waiting?
    && f.phase == Some(WaitingRepoExploration) && !Truthy(f.currentStepId)
    && |children| == 3
    && (forall c :: c in children ==> IsDiscovery(c.flowType) && c.status.Completed?)
    && (exists c :: c in children && c.flowType.RepoResourceDiscovery?)
    && (exists c :: c in children && c.flowType.RepoLeanProviderDiscovery?)
    && (exists c :: c in children && c.flowType.RepoMathlibRecon?)
  }

  predicate Runnable(f: Flow) {
    f.status.Created? || f.status.Running?
  }

  function RunningFlows(flows: seq<Flow>): seq<Flow> {
    Filter(f => Runnable(f), flows)
  }

  function ResumableFlows(flows: seq<Flow>): seq<Flow> {
    Filter(f => ExplorationDone(flows, f), flows)
  }

  /** `runnable`: the created and running flows, then the Coordinators that may leave exploration. */
  function RunnableFlows(flows: seq<Flow>): seq<Flow> {
    RunningFlows(flows) + ResumableFlows(flows)
  }

  function DecideLogic(flows: seq<Flow>): Verdict {
    var runnable := RunnableFlows(flows);
    if runnable == [] then Hold(NeedsReview) else Post(Logic(runnable[|runnable| - 1].scopeId))
  }

  function Decide(s: Snapshot): Verdict {
    if Busy(s.runtime) then Hold(Active)
    else if HasActiveLease(s) then Hold(ActiveLeasePaused)
    else if s.flows == [] then Hold(NotStarted)
    else if HasForeignFlow(s.flows) then Hold(OutsidePreparation)
    else if CoordinatorStarted(s.flows) then Hold(CoordinatorAlreadyStarted)
    else if HasStuckFlow(s.flows) then Hold(NeedsReview)
    else if CoordinatorSteps(s.steps) != [] then
      Hold(if PreparationComplete(s.flows, s.steps) then Prepared else CoordinatorGateIncomplete)
    else if HasUnidentifiedAgent(s.steps) then Hold(UnknownAgent)
    else if StartableAgents(s.steps) != [] then Post(AgentStep(StartableAgents(s.steps)[0].stepId))
    else DecideLogic(s.flows)
  }

  // ----- execution: `decide_execution` -----

  predicate IsLiveCoordinator(f: Flow) {
    f.flowType.NativeRepoCoordinator? && !f.status.Completed? && !f.status.Failed?
  }

  function LiveCoordinators(flows: seq<Flow>): seq<Flow> {
    Filter(f => IsLiveCoordinator(f), flows)
  }

  /** The children of the dispatch the Coordinator currently waits for. */
  function AwaitedChildren(flows: seq<Flow>, c: Flow, st: CoordinatorState): seq<Flow> {
    Filter((f: Flow) => f.parentFlowId == Some(c.flowId) && f.parentDispatchStepId == st.waitingDispatchStepId, flows)
  }

  /** The operator named exactly this terminal manual-pause lease. */
  predicate ReviewAcknowledged(s: Snapshot, reviewed: Option<string>) {
    && Truthy(reviewed) && s.lease.Some? && Some(s.lease.value.leaseId) == reviewed
    && s.lease.value.status.LeaseTerminal? && s.lease.value.terminalReason == Some(ManualPause)
  }

  predicate ReviewedChildCompleted(s: Snapshot, c: Flow, st: CoordinatorState) {
    var children := AwaitedChildren(s.flows, c, st);
    && c.phase == Some(WaitingResourceRequest) && Truthy(st.waitingDispatchStepId)
    && s.steps == [] && |children| == 1 && children[0].status.Completed?
    && children[0].flowType.ResourceCuration? && !children[0].manualPauseActive
  }

  predicate InContentPhase(p: Option<Phase>) {
    p.Some? && (p.value.BeforeContentTaskDispatchSnapshot? || p.value.DispatchContentTasks?
                || p.value.WaitingContentTasks? || p.value.AfterContentTaskBatchSnapshot?)
  }

  predicate InResourcePhase(p: Option<Phase>) {
    p.Some? && (p.value.BeforeResourceRequestDispatchSnapshot? || p.value.DispatchResourceRequest?
                || p.value.WaitingResourceRequest? || p.value.AfterResourceRequestTerminalSnapshot?)
  }

  predicate InAgentPhase(p: Option<Phase>) {
    p.Some? && (p.value.CoordinatorAgentPhase? || p.value.CoordinatorCallback?)
  }

  predicate HasAgentStep(steps: seq<Step>) {
    exists s :: s in steps && !s.agentType.NoAgent?
  }

  function DecideCoordinatorStep(steps: seq<Step>, step: Step, c: Flow): Verdict {
    if |steps| != 1 || step.flowId != c.flowId || !step.status.StepCreated? || step.started
       || Some(step.stepId) != c.currentStepId || !InAgentPhase(c.phase)
    then Hold(NeedsReview)
    else Post(AgentStep(step.stepId))
  }

  function DecideContentBatch(s: Snapshot, c: Flow, st: CoordinatorState): Verdict {
    if st.pendingDispatchKind != Some(ContentTasks) || !Truthy(st.sourceSubmissionId)
       || !Truthy(st.sourceStepId) || st.contentNodePaths == []
    then Hold(NeedsReview)
    else if (c.phase == Some(WaitingContentTasks) || c.phase == Some(AfterContentTaskBatchSnapshot))
            && !Truthy(st.waitingDispatchStepId)
    then Hold(NeedsReview)
    else
      Post(ContentBatch(s.repoKey, c.flowId, st.sourceSubmissionId.value,
                        if Truthy(st.waitingDispatchStepId) then st.waitingDispatchStepId else None))
  }

  function Curators(steps: seq<Step>, child: Flow): seq<Step> {
    Filter((s: Step) => s.agentType.ResourceCuratorAgent? && s.flowId == child.flowId, steps)
  }

  function DecideResourceLogic(steps: seq<Step>, c: Flow): Verdict {
    if HasAgentStep(steps) then Hold(NeedsReview) else Post(Logic(c.scopeId))
  }

  function DecideResourceRequest(s: Snapshot, c: Flow, st: CoordinatorState): Verdict {
    if st.pendingDispatchKind != Some(ResourceRequest) || st.requestedUse != Some(SupportingMaterial) then
      Hold(NeedsReview)
    else if c.phase != Some(WaitingResourceRequest) then DecideResourceLogic(s.steps, c)
    else
      var children := AwaitedChildren(s.flows, c, st);
      if |children| != 1 || !children[0].flowType.ResourceCuration? then Hold(NeedsReview)
      else
        var child := children[0];
        var curators := Curators(s.steps, child);
        if child.status.Failed? || child.status.Suspended? || child.manualPauseActive then Hold(NeedsReview)
        else if curators != [] then
          if |s.steps| != 1 || !curators[0].status.StepCreated? || curators[0].started then Hold(NeedsReview)
          else Post(AgentStep(curators[0].stepId))
        else if !child.status.Created? && !child.status.Running? && !child.status.Completed? then Hold(NeedsReview)
        else DecideResourceLogic(s.steps, c)
  }

  /** What a Coordinator that may go on does next. */
  function DecideNextAction(s: Snapshot, c: Flow, st: CoordinatorState): Verdict {
    if CoordinatorSteps(s.steps) != [] then DecideCoordinatorStep(s.steps, CoordinatorSteps(s.steps)[0], c)
    else if InContentPhase(c.phase) then DecideContentBatch(s, c, st)
    else if InResourcePhase(c.phase) then DecideResourceRequest(s, c, st)
    else if HasAgentStep(s.steps) then Hold(NeedsReview)
    else if InAgentPhase(c.phase) || c.phase == Some(MarkRepoReady) then Post(Logic(c.scopeId))
    else Hold(NeedsReview)
  }

  /** What is decided once exactly one live Coordinator Flow is known. */
  function DecideForCoordinator(s: Snapshot, c: Flow): Verdict {
    var st := if s.coordinatorState.Some? then s.coordinatorState.value else NO_STATE;
    if c.manualPauseActive || !(c.status.Created? || c.status.Running? || c.status.Waiting?) then Hold(NeedsReview)
    else if st.phase != c.phase then Hold(NeedsReview)
    else if s.leaseReviewRequired && !ReviewedChildCompleted(s, c, st) then Hold(NeedsReview)
    else if CurrentStepStuck(c) then Hold(NeedsReview)
    else DecideNextAction(s, c, st)
  }

  predicate Published(s: Snapshot) {
    s.publication == Some(ReadyPublication) || s.publication == Some(StablePublication)
  }

  predicate EverythingCompleted(s: Snapshot) {
    Published(s) && s.flows != [] && (forall f :: f in s.flows ==> f.status.Completed?) && s.steps == []
  }

  function DecideExecution(s: Snapshot, reviewed: Option<string>): Verdict {
    var coordinators := LiveCoordinators(s.flows);
    if Busy(s.runtime) then Hold(Active)
    else if HasActiveLease(s) then Hold(ActiveLeasePaused)
    else if s.leaseReviewRequired && !ReviewAcknowledged(s, reviewed) then Hold(NeedsReview)
    else if coordinators == [] then Hold(if EverythingCompleted(s) then Ready else NeedsReview)
    else if |coordinators| != 1 then Hold(NeedsReview)
    else DecideForCoordinator(s, coordinators[0])
  }
}
