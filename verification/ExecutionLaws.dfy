/**
 * Exactly when `decide_execution` gives each of its actions, told in the fields of the snapshot: not only what an
 * advance implies, but when one must be given.
 */
module ExecutionLaws {
  import opened Ordering
  import opened Filtering
  import opened Frontier
  import opened FrontierFields
  import opened FrontierLaws

  // ----- what a snapshot must show -----

  /** The Coordinator Flow at position i is in order, and no other Coordinator Flow is unfinished. */
  ghost predicate LoneCoordinator(flows: seq<Flow>, i: nat) {
    && i < |flows| && flows[i].flowType == NativeRepoCoordinator && !flows[i].manualPauseActive
    && flows[i].status in [Created, Running, Waiting]
    && forall j :: 0 <= j < |flows| && flows[j].flowType == NativeRepoCoordinator && j != i ==>
                     flows[j].status in [Completed, Failed]
  }

  predicate ChildOf(f: Flow, c: Flow, dispatch: Option<string>) {
    f.parentFlowId == Some(c.flowId) && f.parentDispatchStepId == dispatch
  }

  /** The flow at position k is the only child of the dispatch that the Coordinator waits for. */
  ghost predicate LoneChild(flows: seq<Flow>, c: Flow, dispatch: Option<string>, k: nat) {
    && k < |flows| && ChildOf(flows[k], c, dispatch)
    && forall j :: 0 <= j < |flows| && ChildOf(flows[j], c, dispatch) ==> j == k
  }

  /** The operator named exactly this lease, which ended with a manual pause. */
  predicate LeaseAcknowledged(s: Snapshot, reviewed: Option<string>) {
    && Given(reviewed) && s.lease.Some? && s.lease.value.leaseId == reviewed.value
    && s.lease.value.status == LeaseTerminal && s.lease.value.terminalReason == Some(ManualPause)
  }

  /** A pending review: the operator named exactly this lease, and the awaited resource child is done. */
  ghost predicate ReviewSettled(s: Snapshot, reviewed: Option<string>, c: Flow)
    requires s.coordinatorState.Some?
  {
    var dispatch := s.coordinatorState.value.waitingDispatchStepId;
    && LeaseAcknowledged(s, reviewed)
    && c.phase == Some(WaitingResourceRequest) && Given(dispatch) && s.steps == []
    && exists k: nat :: LoneChild(s.flows, c, dispatch, k) && s.flows[k].status == Completed
                   && s.flows[k].flowType == ResourceCuration && !s.flows[k].manualPauseActive
  }

  /** What every action asks for; the Coordinator is the flow at position i. */
  ghost predicate MayGoOn(s: Snapshot, reviewed: Option<string>, i: nat) {
    && Idle(s) && NoActiveLease(s) && LoneCoordinator(s.flows, i)
    && s.coordinatorState.Some? && s.flows[i].phase.Some? && s.coordinatorState.value.phase == s.flows[i].phase
    && (s.leaseReviewRequired ==> ReviewSettled(s, reviewed, s.flows[i]))
    && CurrentStepHealthy(s.flows[i])
  }

  predicate OnlyStep(steps: seq<Step>, id: string, agent: AgentType, flowId: string) {
    && |steps| == 1 && steps[0].stepId == id && steps[0].agentType == agent && steps[0].flowId == flowId
    && steps[0].status == StepCreated && !steps[0].started
  }

  predicate CoordinatorStepDue(s: Snapshot, c: Flow, id: string) {
    && OnlyStep(s.steps, id, CoordinatorAgent, c.flowId) && c.currentStepId == Some(id)
    && c.phase in [Some(CoordinatorAgentPhase), Some(CoordinatorCallback)]
  }

  predicate SupportingMaterialRequested(st: CoordinatorState) {
    st.pendingDispatchKind == Some(ResourceRequest) && st.requestedUse == Some(SupportingMaterial)
  }

  ghost predicate CuratorStepDue(s: Snapshot, c: Flow, st: CoordinatorState, id: string) {
    && c.phase == Some(WaitingResourceRequest) && SupportingMaterialRequested(st)
    && exists k: nat :: LoneChild(s.flows, c, st.waitingDispatchStepId, k) && s.flows[k].flowType == ResourceCuration
                   && s.flows[k].status !in [Failed, Suspended] && !s.flows[k].manualPauseActive
                   && OnlyStep(s.steps, id, ResourceCuratorAgent, s.flows[k].flowId)
  }

  predicate BatchDue(s: Snapshot, c: Flow, st: CoordinatorState, body: Action) {
    && (forall x :: x in s.steps ==> x.agentType != CoordinatorAgent)
    && c.phase in [Some(BeforeContentTaskDispatchSnapshot), Some(DispatchContentTasks), Some(WaitingContentTasks),
                   Some(AfterContentTaskBatchSnapshot)]
    && st.pendingDispatchKind == Some(ContentTasks) && Given(st.sourceSubmissionId) && Given(st.sourceStepId)
    && st.contentNodePaths != []
    && (c.phase in [Some(WaitingContentTasks), Some(AfterContentTaskBatchSnapshot)] ==> Given(st.waitingDispatchStepId))
    && body == ContentBatch(s.repoKey, c.flowId, st.sourceSubmissionId.value,
                            if Given(st.waitingDispatchStepId) then st.waitingDispatchStepId else None)
  }

  ghost predicate ResourceLogicDue(s: Snapshot, c: Flow, st: CoordinatorState) {
    && c.phase in [Some(BeforeResourceRequestDispatchSnapshot), Some(DispatchResourceRequest),
                   Some(WaitingResourceRequest), Some(AfterResourceRequestTerminalSnapshot)]
    && SupportingMaterialRequested(st)
    && (c.phase == Some(WaitingResourceRequest) ==>
          exists k: nat :: LoneChild(s.flows, c, st.waitingDispatchStepId, k) && s.flows[k].flowType == ResourceCuration
                      && s.flows[k].status in [Created, Running, Completed] && !s.flows[k].manualPauseActive)
  }

  ghost predicate LogicDue(s: Snapshot, c: Flow, st: CoordinatorState) {
    && (forall x :: x in s.steps ==> x.agentType == NoAgent)
    && (c.phase in [Some(CoordinatorAgentPhase), Some(CoordinatorCallback), Some(MarkRepoReady)]
        || ResourceLogicDue(s, c, st))
  }

  // ----- the gate -----

  lemma LoneCoordinatorIsLive(flows: seq<Flow>, i: nat)
    requires LoneCoordinator(flows, i)
    ensures LiveCoordinators(flows) == [flows[i]]
  {
    FilterOnlyAt(f => IsLiveCoordinator(f), flows, i);
  }

  lemma LiveCoordinatorIsLone(flows: seq<Flow>) returns (i: nat)
    requires |LiveCoordinators(flows)| == 1
    requires var c := LiveCoordinators(flows)[0];
      !c.manualPauseActive && (c.status.Created? || c.status.Running? || c.status.Waiting?)
    ensures LoneCoordinator(flows, i) && LiveCoordinators(flows) == [flows[i]]
  {
    i := FilteredOnce(f => IsLiveCoordinator(f), flows);
    FilterOnlyAt(f => IsLiveCoordinator(f), flows, i);
  }

  lemma LoneChildIsAwaited(flows: seq<Flow>, c: Flow, st: CoordinatorState, k: nat)
    requires LoneChild(flows, c, st.waitingDispatchStepId, k)
    ensures AwaitedChildren(flows, c, st) == [flows[k]]
  {
    var p := (f: Flow) => f.parentFlowId == Some(c.flowId) && f.parentDispatchStepId == st.waitingDispatchStepId;
    FilterOnlyAt(p, flows, k);
    assert AwaitedChildren(flows, c, st) == Filter(p, flows);
  }

  lemma AwaitedChildIsLone(flows: seq<Flow>, c: Flow, st: CoordinatorState) returns (k: nat)
    requires |AwaitedChildren(flows, c, st)| == 1
    ensures LoneChild(flows, c, st.waitingDispatchStepId, k) && AwaitedChildren(flows, c, st) == [flows[k]]
  {
    var p := (f: Flow) => f.parentFlowId == Some(c.flowId) && f.parentDispatchStepId == st.waitingDispatchStepId;
    assert AwaitedChildren(flows, c, st) == Filter(p, flows);
    k := FilteredOnce(p, flows);
    FilterOnlyAt(p, flows, k);
  }

  lemma ReviewSettledIff(s: Snapshot, reviewed: Option<string>, c: Flow)
    requires s.coordinatorState.Some?
    ensures ReviewSettled(s, reviewed, c) <==>
            ReviewAcknowledged(s, reviewed) && ReviewedChildCompleted(s, c, s.coordinatorState.value)
  {
    var st := s.coordinatorState.value;
    if ReviewSettled(s, reviewed, c) {
      var k: nat :| LoneChild(s.flows, c, st.waitingDispatchStepId, k) && s.flows[k].status == Completed
               && s.flows[k].flowType == ResourceCuration && !s.flows[k].manualPauseActive;
      LoneChildIsAwaited(s.flows, c, st, k);
    }
    if ReviewAcknowledged(s, reviewed) && ReviewedChildCompleted(s, c, st) {
      var k := AwaitedChildIsLone(s.flows, c, st);
    }
  }

  lemma PassesGate(s: Snapshot, reviewed: Option<string>, i: nat)
    requires MayGoOn(s, reviewed, i)
    ensures DecideExecution(s, reviewed) == DecideNextAction(s, s.flows[i], s.coordinatorState.value)
  {
    LoneCoordinatorIsLive(s.flows, i);
    StuckIff(s.flows[i]);
    ReviewSettledIff(s, reviewed, s.flows[i]);
  }

  lemma AdvancePassesGate(s: Snapshot, reviewed: Option<string>) returns (i: nat)
    requires DecideExecution(s, reviewed).disposition == Advance
    ensures MayGoOn(s, reviewed, i)
  {
    var c := ExecutionHasOneCoordinator(s, reviewed);
    i := LiveCoordinatorIsLone(s.flows);
    assert c == s.flows[i];
    StuckIff(c);
    if s.coordinatorState.Some? {
      ReviewSettledIff(s, reviewed, c);
    }
  }

  // ----- each action -----

  lemma CoordinatorStepsIff(steps: seq<Step>)
    ensures CoordinatorSteps(steps) == [] <==> forall x :: x in steps ==> x.agentType != CoordinatorAgent
  {
    CoordinatorStepMembers(steps);
    assert CoordinatorSteps(steps) != [] ==> CoordinatorSteps(steps)[0] in CoordinatorSteps(steps);
  }

  lemma CoordinatorStepIff(s: Snapshot, c: Flow, st: CoordinatorState, id: string)
    ensures CoordinatorSteps(s.steps) != [] && DecideNextAction(s, c, st) == Post(AgentStep(id)) <==>
            CoordinatorStepDue(s, c, id)
  {
    CoordinatorStepMembers(s.steps);
    if CoordinatorSteps(s.steps) != [] && DecideNextAction(s, c, st) == Post(AgentStep(id)) {
      CoordinatorStepIsTheOnlyStep(s.steps, c, id);
    }
    if CoordinatorStepDue(s, c, id) {
      assert s.steps[0] in CoordinatorSteps(s.steps);
      assert CoordinatorSteps(s.steps)[0] in CoordinatorSteps(s.steps);
    }
  }

  lemma BatchDueIff(s: Snapshot, c: Flow, st: CoordinatorState, body: Action)
    requires body.ContentBatch?
    ensures DecideNextAction(s, c, st) == Post(body) <==> BatchDue(s, c, st, body)
  {
    CoordinatorStepsIff(s.steps);
  }

  lemma CuratorsOf(steps: seq<Step>, child: Flow)
    ensures Curators(steps, child) == [] <==>
            forall x :: x in steps && x.agentType == ResourceCuratorAgent ==> x.flowId != child.flowId
    ensures Curators(steps, child) != [] ==> Curators(steps, child)[0] in steps
    ensures Curators(steps, child) != [] ==>
              Curators(steps, child)[0].agentType == ResourceCuratorAgent
              && Curators(steps, child)[0].flowId == child.flowId
  {
    CuratorMembers(steps, child);
    assert Curators(steps, child) != [] ==> Curators(steps, child)[0] in Curators(steps, child);
  }

  lemma CuratorStepIff(s: Snapshot, c: Flow, st: CoordinatorState, id: string)
    ensures CoordinatorSteps(s.steps) == [] && DecideNextAction(s, c, st) == Post(AgentStep(id)) <==>
            CuratorStepDue(s, c, st, id)
  {
    CoordinatorStepsIff(s.steps);
    if CoordinatorSteps(s.steps) == [] && DecideNextAction(s, c, st) == Post(AgentStep(id)) {
      var k := AwaitedChildIsLone(s.flows, c, st);
      CuratorsOf(s.steps, s.flows[k]);
      assert OnlyStep(s.steps, id, ResourceCuratorAgent, s.flows[k].flowId);
    }
    if CuratorStepDue(s, c, st, id) {
      var k: nat :| LoneChild(s.flows, c, st.waitingDispatchStepId, k) && s.flows[k].flowType == ResourceCuration
               && s.flows[k].status !in [Failed, Suspended] && !s.flows[k].manualPauseActive
               && OnlyStep(s.steps, id, ResourceCuratorAgent, s.flows[k].flowId);
      LoneChildIsAwaited(s.flows, c, st, k);
      CuratorsOf(s.steps, s.flows[k]);
      assert s.steps[0] in s.steps;
    }
  }

  lemma NoAgentIff(steps: seq<Step>)
    ensures !HasAgentStep(steps) <==> forall x :: x in steps ==> x.agentType == NoAgent
    ensures !HasAgentStep(steps) ==> CoordinatorSteps(steps) == []
    ensures !HasAgentStep(steps) ==> forall child :: Curators(steps, child) == []
  {
    CoordinatorStepsIff(steps);
    forall child ensures !HasAgentStep(steps) ==> Curators(steps, child) == [] {
      CuratorsOf(steps, child);
    }
  }

  lemma AwaitedLogicIff(s: Snapshot, c: Flow, st: CoordinatorState)
    requires c.phase == Some(WaitingResourceRequest) && SupportingMaterialRequested(st) && !HasAgentStep(s.steps)
    ensures DecideResourceRequest(s, c, st) == (if ResourceLogicDue(s, c, st) then Post(Logic(c.scopeId))
                                                else Hold(NeedsReview))
  {
    NoAgentIff(s.steps);
    if |AwaitedChildren(s.flows, c, st)| == 1 {
      var k := AwaitedChildIsLone(s.flows, c, st);
    }
    if ResourceLogicDue(s, c, st) {
      var k: nat :| LoneChild(s.flows, c, st.waitingDispatchStepId, k) && s.flows[k].flowType == ResourceCuration
               && s.flows[k].status in [Created, Running, Completed] && !s.flows[k].manualPauseActive;
      LoneChildIsAwaited(s.flows, c, st, k);
    }
  }

  lemma LogicNeedsNoAgent(s: Snapshot, c: Flow, st: CoordinatorState, scope: string)
    requires DecideNextAction(s, c, st) == Post(Logic(scope))
    ensures !HasAgentStep(s.steps) && c.scopeId == scope
  {
  }

  lemma LogicDueIff(s: Snapshot, c: Flow, st: CoordinatorState, scope: string)
    ensures DecideNextAction(s, c, st) == Post(Logic(scope)) <==> LogicDue(s, c, st) && c.scopeId == scope
  {
    NoAgentIff(s.steps);
    if DecideNextAction(s, c, st) == Post(Logic(scope)) {
      LogicNeedsNoAgent(s, c, st, scope);
    }
    if !HasAgentStep(s.steps) && c.phase == Some(WaitingResourceRequest) && SupportingMaterialRequested(st) {
      AwaitedLogicIff(s, c, st);
    }
  }

  // ----- main results -----

  /** An agent action is given exactly when the Coordinator's or the Resource Curator's one step is due. */
  lemma ExecutionAgentIff(s: Snapshot, reviewed: Option<string>, id: string)
    ensures DecideExecution(s, reviewed) == Post(AgentStep(id)) <==>
            exists i: nat :: MayGoOn(s, reviewed, i)
                        && (CoordinatorStepDue(s, s.flows[i], id)
                            || CuratorStepDue(s, s.flows[i], s.coordinatorState.value, id))
  {
    if DecideExecution(s, reviewed).disposition == Advance {
      var i := AdvancePassesGate(s, reviewed);
    }
    forall i: nat | MayGoOn(s, reviewed, i)
      ensures DecideExecution(s, reviewed) == Post(AgentStep(id)) <==>
              (CoordinatorStepDue(s, s.flows[i], id) || CuratorStepDue(s, s.flows[i], s.coordinatorState.value, id))
    {
      PassesGate(s, reviewed, i);
      CoordinatorStepIff(s, s.flows[i], s.coordinatorState.value, id);
      CuratorStepIff(s, s.flows[i], s.coordinatorState.value, id);
    }
  }

  /** A logic action is given exactly when it is due, in the scope of the Coordinator. */
  lemma ExecutionLogicIff(s: Snapshot, reviewed: Option<string>, scope: string)
    ensures DecideExecution(s, reviewed) == Post(Logic(scope)) <==>
            exists i: nat :: MayGoOn(s, reviewed, i) && LogicDue(s, s.flows[i], s.coordinatorState.value)
                        && s.flows[i].scopeId == scope
  {
    if DecideExecution(s, reviewed).disposition == Advance {
      var i := AdvancePassesGate(s, reviewed);
    }
    forall i: nat | MayGoOn(s, reviewed, i)
      ensures DecideExecution(s, reviewed) == Post(Logic(scope)) <==>
              LogicDue(s, s.flows[i], s.coordinatorState.value) && s.flows[i].scopeId == scope
    {
      PassesGate(s, reviewed, i);
      LogicDueIff(s, s.flows[i], s.coordinatorState.value, scope);
    }
  }

  /** A content batch is given exactly when it is due, with the identity of the pending dispatch. */
  lemma ExecutionBatchIff(s: Snapshot, reviewed: Option<string>, body: Action)
    requires body.ContentBatch?
    ensures DecideExecution(s, reviewed) == Post(body) <==>
            exists i: nat :: MayGoOn(s, reviewed, i) && BatchDue(s, s.flows[i], s.coordinatorState.value, body)
  {
    if DecideExecution(s, reviewed).disposition == Advance {
      var i := AdvancePassesGate(s, reviewed);
    }
    forall i: nat | MayGoOn(s, reviewed, i)
      ensures DecideExecution(s, reviewed) == Post(body) <==>
              BatchDue(s, s.flows[i], s.coordinatorState.value, body)
    {
      PassesGate(s, reviewed, i);
      BatchDueIff(s, s.flows[i], s.coordinatorState.value, body);
    }
  }

  lemma ReadyInFields(s: Snapshot, reviewed: Option<string>)
    ensures DecideExecution(s, reviewed).disposition == Ready <==>
            && Idle(s) && NoActiveLease(s) && (s.leaseReviewRequired ==> LeaseAcknowledged(s, reviewed))
            && s.publication in [Some(ReadyPublication), Some(StablePublication)]
            && s.flows != [] && (forall f :: f in s.flows ==> f.status == Completed) && s.steps == []
  {
    ReadyIff(s, reviewed);
  }

  lemma HeldByRuntimeOrLease(s: Snapshot, reviewed: Option<string>)
    ensures DecideExecution(s, reviewed).disposition == Active <==> !Idle(s)
    ensures DecideExecution(s, reviewed).disposition == ActiveLeasePaused <==> Idle(s) && !NoActiveLease(s)
  {
  }

  lemma AnswersKnown(s: Snapshot, reviewed: Option<string>)
    ensures DecideExecution(s, reviewed).disposition in [Active, ActiveLeasePaused, Ready, NeedsReview, Advance]
    ensures DecideExecution(s, reviewed).disposition == Advance <==> DecideExecution(s, reviewed).action.Some?
  {
  }

  /** Every other answer: which hold is given, and when. */
  lemma ExecutionHoldIff(s: Snapshot, reviewed: Option<string>)
    ensures DecideExecution(s, reviewed).disposition in [Active, ActiveLeasePaused, Ready, NeedsReview, Advance]
    ensures DecideExecution(s, reviewed).disposition == Advance <==> DecideExecution(s, reviewed).action.Some?
    ensures DecideExecution(s, reviewed).disposition == Active <==> !Idle(s)
    ensures DecideExecution(s, reviewed).disposition == ActiveLeasePaused <==> Idle(s) && !NoActiveLease(s)
    ensures DecideExecution(s, reviewed).disposition == Ready <==>
            && Idle(s) && NoActiveLease(s) && (s.leaseReviewRequired ==> LeaseAcknowledged(s, reviewed))
            && s.publication in [Some(ReadyPublication), Some(StablePublication)]
            && s.flows != [] && (forall f :: f in s.flows ==> f.status == Completed) && s.steps == []
  {
    HeldByRuntimeOrLease(s, reviewed);
    AnswersKnown(s, reviewed);
    ReadyInFields(s, reviewed);
  }
}
