/** Exactly what `decide` answers to each snapshot, told in the snapshot's fields. */
module PreparationLaws {
  import opened Collections
  import opened Ordering
  import opened Filtering
  import opened Frontier
  import opened FrontierFields
  import opened FrontierLaws

  const PREPARATION_FLOWS := [
    NativeRepoPreparation, NativeRepoContinuation, SourceIndexBuild, RootInterfacePreparation, RepoResourceDiscovery,
    RepoLeanProviderDiscovery, RepoMathlibRecon, NativeRepoCoordinator]

  const PREPARATION_AGENTS := [
    RepoFormatDiscoveryAgent, SourceCorpusBuilderAgent, SourceCorpusReviewerAgent, SourceIndexBuilderAgent,
    SourceIndexReviewerAgent, RootInterfacePrepareAgent, RepoResourceDiscoveryAgent, RepoLeanProviderDiscoveryAgent,
    RepoMathlibReconAgent]

  // ----- the guards -----

  predicate OccursAt(word: string, text: string, i: nat) {
    i + |word| <= |text| && text[i..i + |word|] == word
  }

  ghost predicate Contains(text: string, word: string) {
    exists i: nat :: OccursAt(word, text, i)
  }

  lemma OccursLater(word: string, text: string, i: nat)
    requires text != "" && i > 0
    ensures OccursAt(word, text, i) <==> OccursAt(word, text[1..], i - 1)
  {
    if i + |word| <= |text| {
      assert text[i..i + |word|] == text[1..][i - 1..i - 1 + |word|];
    }
  }

  lemma {:induction false} MentionedSomewhere(word: string, text: string) returns (i: nat)
    requires Mentions(word, text)
    ensures OccursAt(word, text, i)
  {
    if |word| <= |text| && word == text[..|word|] {
      i := 0;
    } else {
      var k := MentionedSomewhere(word, text[1..]);
      i := k + 1;
      OccursLater(word, text, i);
    }
  }

  lemma {:induction false} OccurrenceIsMention(word: string, text: string, i: nat)
    requires OccursAt(word, text, i)
    ensures Mentions(word, text)
  {
    if i == 0 {
      assert text[0..0 + |word|] == text[..|word|];
    } else {
      OccursLater(word, text, i);
      OccurrenceIsMention(word, text[1..], i - 1);
    }
  }

  lemma MentionsIff(word: string, text: string)
    ensures Mentions(word, text) <==> Contains(text, word)
  {
    if Mentions(word, text) {
      var i := MentionedSomewhere(word, text);
    }
    if Contains(text, word) {
      var i: nat :| OccursAt(word, text, i);
      OccurrenceIsMention(word, text, i);
    }
  }

  /** The flows are all of preparation types and none of them ever started a Coordinator agent step. */
  predicate OnlyPreparation(s: Snapshot) {
    forall f :: f in s.flows ==> f.flowType in PREPARATION_FLOWS
  }

  predicate NoCoordinatorStarted(s: Snapshot) {
    forall f, x :: f in s.flows && x in f.steps && x.agentType == CoordinatorAgent ==> !x.started
  }

  ghost predicate FlowsHealthy(s: Snapshot) {
    forall f :: f in s.flows && f.status != Completed ==>
      f.status !in [Failed, Suspended] && !f.manualPauseActive && CurrentStepHealthy(f)
  }

  ghost predicate MayPrepare(s: Snapshot) {
    && Idle(s) && NoActiveLease(s) && s.flows != []
    && OnlyPreparation(s) && NoCoordinatorStarted(s) && FlowsHealthy(s)
  }

  predicate NoCoordinatorStep(s: Snapshot) {
    forall x :: x in s.steps ==> x.agentType != CoordinatorAgent
  }

  ghost predicate AgentsKnown(s: Snapshot) {
    forall x :: x in s.steps ==>
      if x.agentType == NoAgent then !Contains(x.stepType, "agent") else x.agentType in PREPARATION_AGENTS
  }

  lemma PreparationFlowsIff(t: FlowType)
    ensures IsPrepFlow(t) <==> t in PREPARATION_FLOWS
  {
    assert PREPARATION_FLOWS[0] == NativeRepoPreparation && PREPARATION_FLOWS[1] == NativeRepoContinuation;
    assert PREPARATION_FLOWS[2] == SourceIndexBuild && PREPARATION_FLOWS[3] == RootInterfacePreparation;
    assert PREPARATION_FLOWS[4] == RepoResourceDiscovery && PREPARATION_FLOWS[5] == RepoLeanProviderDiscovery;
    assert PREPARATION_FLOWS[6] == RepoMathlibRecon && PREPARATION_FLOWS[7] == NativeRepoCoordinator;
  }

  lemma PreparationAgentsIff(a: AgentType)
    ensures IsPrepAgent(a) <==> a in PREPARATION_AGENTS
  {
    assert PREPARATION_AGENTS[0] == RepoFormatDiscoveryAgent && PREPARATION_AGENTS[1] == SourceCorpusBuilderAgent;
    assert PREPARATION_AGENTS[2] == SourceCorpusReviewerAgent && PREPARATION_AGENTS[3] == SourceIndexBuilderAgent;
    assert PREPARATION_AGENTS[4] == SourceIndexReviewerAgent && PREPARATION_AGENTS[5] == RootInterfacePrepareAgent;
    assert PREPARATION_AGENTS[6] == RepoResourceDiscoveryAgent;
    assert PREPARATION_AGENTS[7] == RepoLeanProviderDiscoveryAgent && PREPARATION_AGENTS[8] == RepoMathlibReconAgent;
  }

  lemma FlowGuardsIff(s: Snapshot)
    ensures HasForeignFlow(s.flows) <==> !OnlyPreparation(s)
    ensures CoordinatorStarted(s.flows) <==> !NoCoordinatorStarted(s)
    ensures HasStuckFlow(s.flows) <==> !FlowsHealthy(s)
  {
    forall f | f in s.flows
      ensures IsPrepFlow(f.flowType) <==> f.flowType in PREPARATION_FLOWS
      ensures CurrentStepStuck(f) <==> !CurrentStepHealthy(f)
    {
      PreparationFlowsIff(f.flowType);
      StuckIff(f);
    }
  }

  lemma StepGuardsIff(s: Snapshot)
    ensures CoordinatorSteps(s.steps) == [] <==> NoCoordinatorStep(s)
    ensures HasUnidentifiedAgent(s.steps) <==> !AgentsKnown(s)
  {
    CoordinatorStepMembers(s.steps);
    assert CoordinatorSteps(s.steps) != [] ==> CoordinatorSteps(s.steps)[0] in CoordinatorSteps(s.steps);
    forall x: Step
      ensures IsPrepAgent(x.agentType) <==> x.agentType in PREPARATION_AGENTS
      ensures Mentions("agent", x.stepType) <==> Contains(x.stepType, "agent")
    {
      PreparationAgentsIff(x.agentType);
      MentionsIff("agent", x.stepType);
    }
  }

  // ----- the holds -----

  lemma EarlyHolds(s: Snapshot)
    ensures Decide(s).disposition == Active <==> !Idle(s)
    ensures Decide(s).disposition == ActiveLeasePaused <==> Idle(s) && !NoActiveLease(s)
    ensures Decide(s).disposition == NotStarted <==> Idle(s) && NoActiveLease(s) && s.flows == []
    ensures Decide(s).disposition == OutsidePreparation <==> Idle(s) && NoActiveLease(s) && !OnlyPreparation(s)
    ensures Decide(s).disposition == CoordinatorAlreadyStarted <==>
            Idle(s) && NoActiveLease(s) && OnlyPreparation(s) && !NoCoordinatorStarted(s)
  {
    FlowGuardsIff(s);
  }

  lemma LateHolds(s: Snapshot)
    ensures Decide(s).disposition in [Prepared, CoordinatorGateIncomplete] <==> MayPrepare(s) && !NoCoordinatorStep(s)
    ensures Decide(s).disposition == UnknownAgent <==> MayPrepare(s) && NoCoordinatorStep(s) && !AgentsKnown(s)
    ensures Idle(s) && NoActiveLease(s) && OnlyPreparation(s) && NoCoordinatorStarted(s) && !FlowsHealthy(s) ==>
              Decide(s).disposition == NeedsReview
    ensures MayPrepare(s) && NoCoordinatorStep(s) && AgentsKnown(s) ==> Decide(s).disposition in [Advance, NeedsReview]
  {
    FlowGuardsIff(s);
    StepGuardsIff(s);
  }

  /** Each hold is the first one that applies. */
  lemma PreparationHoldIff(s: Snapshot)
    ensures Decide(s).disposition == Advance <==> Decide(s).action.Some?
    ensures Decide(s).disposition == Active <==> !Idle(s)
    ensures Decide(s).disposition == ActiveLeasePaused <==> Idle(s) && !NoActiveLease(s)
    ensures Decide(s).disposition == NotStarted <==> Idle(s) && NoActiveLease(s) && s.flows == []
    ensures Decide(s).disposition == OutsidePreparation <==> Idle(s) && NoActiveLease(s) && !OnlyPreparation(s)
    ensures Decide(s).disposition == CoordinatorAlreadyStarted <==>
            Idle(s) && NoActiveLease(s) && OnlyPreparation(s) && !NoCoordinatorStarted(s)
    ensures Decide(s).disposition in [Prepared, CoordinatorGateIncomplete] <==> MayPrepare(s) && !NoCoordinatorStep(s)
    ensures Decide(s).disposition == UnknownAgent <==> MayPrepare(s) && NoCoordinatorStep(s) && !AgentsKnown(s)
    ensures Idle(s) && NoActiveLease(s) && OnlyPreparation(s) && NoCoordinatorStarted(s) && !FlowsHealthy(s) ==>
              Decide(s).disposition == NeedsReview
    ensures MayPrepare(s) && NoCoordinatorStep(s) && AgentsKnown(s) ==> Decide(s).disposition in [Advance, NeedsReview]
  {
    EarlyHolds(s);
    LateHolds(s);
  }

  const GATE := [
    RepoResourceDiscovery, RepoLeanProviderDiscovery, RepoMathlibRecon, SourceIndexBuild, RootInterfacePreparation]

  predicate SomeCompleted(flows: seq<Flow>, t: FlowType) {
    exists f :: f in flows && f.flowType == t && f.status == Completed
  }

  /** A flow of each gating type is completed, and only Coordinator Flows are unfinished. */
  predicate GatePassed(flows: seq<Flow>) {
    && (forall t :: t in GATE ==> SomeCompleted(flows, t))
    && forall f :: f in flows && f.status != Completed ==> f.flowType == NativeRepoCoordinator
  }

  lemma GatePassedIff(flows: seq<Flow>)
    ensures GatePassed(flows) <==>
            PreparationGate(flows) && forall f :: f in flows && Unfinished(f) ==> f.flowType.NativeRepoCoordinator?
  {
    assert GATE[0] == RepoResourceDiscovery && GATE[1] == RepoLeanProviderDiscovery && GATE[2] == RepoMathlibRecon;
    assert GATE[3] == SourceIndexBuild && GATE[4] == RootInterfacePreparation;
    assert forall t :: TypeCompleted(flows, t) <==> SomeCompleted(flows, t);
  }

  /** `prepared` exactly when the sole pending step is an unstarted created Coordinator past the completed gate. */
  lemma PreparedIff(s: Snapshot)
    ensures Decide(s).disposition == Prepared <==>
            && MayPrepare(s)
            && |s.steps| == 1 && s.steps[0].agentType == CoordinatorAgent && s.steps[0].status == StepCreated
            && !s.steps[0].started && GatePassed(s.flows)
  {
    FlowGuardsIff(s);
    PreparationCompleteIff(s.flows, s.steps);
    GatePassedIff(s.flows);
  }

  // ----- the agent action -----

  predicate Startable(x: Step) {
    x.agentType in PREPARATION_AGENTS && x.status == StepCreated
  }

  /** The first startable step in the order of the tree. */
  predicate FirstStartableAt(steps: seq<Step>, k: nat) {
    k < |steps| && Startable(steps[k]) && forall j :: 0 <= j < k ==> !Startable(steps[j])
  }

  lemma {:induction false} StartableAgentsStart(steps: seq<Step>)
    ensures StartableAgents(steps) == [] <==> forall k :: 0 <= k < |steps| ==> !Startable(steps[k])
    ensures forall k: nat :: FirstStartableAt(steps, k) ==>
              StartableAgents(steps) != [] && StartableAgents(steps)[0] == steps[k]
    ensures StartableAgents(steps) != [] ==> exists k: nat :: FirstStartableAt(steps, k)
  {
    if steps != [] {
      PreparationAgentsIff(steps[0].agentType);
      StartableAgentsStart(steps[1..]);
      var p := (s: Step) => IsPrepAgent(s.agentType) && s.status.StepCreated?;
      assert StartableAgents(steps) == Filter(p, steps) && StartableAgents(steps[1..]) == Filter(p, steps[1..]);
      if Startable(steps[0]) {
        assert FirstStartableAt(steps, 0);
      } else {
        forall k: nat | FirstStartableAt(steps, k)
          ensures StartableAgents(steps) != [] && StartableAgents(steps)[0] == steps[k]
        {
          assert FirstStartableAt(steps[1..], k - 1);
        }
        if StartableAgents(steps) != [] {
          var k: nat :| FirstStartableAt(steps[1..], k);
          assert FirstStartableAt(steps, k + 1);
        }
        assert forall k :: 0 <= k < |steps| - 1 ==> steps[1..][k] == steps[k + 1];
      }
    }
  }

  /** The step posted is the first created preparation agent, whenever there is one and nothing stands against it. */
  lemma PreparationAgentIff(s: Snapshot, id: string)
    ensures Decide(s) == Post(AgentStep(id)) <==>
            && MayPrepare(s) && NoCoordinatorStep(s) && AgentsKnown(s)
            && exists k: nat :: FirstStartableAt(s.steps, k) && s.steps[k].stepId == id
  {
    FlowGuardsIff(s);
    StepGuardsIff(s);
    StartableAgentsStart(s.steps);
  }

  // ----- the logic action -----

  predicate ChildOf(f: Flow, parent: Flow) {
    f.parentFlowId == Some(parent.flowId)
  }

  predicate DiscoveryDone(flows: seq<Flow>, parent: Flow, t: FlowType, k: nat) {
    k < |flows| && ChildOf(flows[k], parent) && flows[k].flowType == t && flows[k].status == Completed
  }

  /** The completed discoveries at a, b and c are all the children. */
  ghost predicate DiscoveriesAt(flows: seq<Flow>, parent: Flow, a: nat, b: nat, c: nat) {
    && DiscoveryDone(flows, parent, RepoResourceDiscovery, a)
    && DiscoveryDone(flows, parent, RepoLeanProviderDiscovery, b)
    && DiscoveryDone(flows, parent, RepoMathlibRecon, c)
    && forall j :: 0 <= j < |flows| && ChildOf(flows[j], parent) ==> j == a || j == b || j == c
  }

  /** A Coordinator between steps that waits for its exploration, which is finished. */
  ghost predicate Resumable(flows: seq<Flow>, f: Flow) {
    && f.flowType == NativeRepoCoordinator && f.status == Waiting && f.phase == Some(WaitingRepoExploration)
    && !Given(f.currentStepId)
    && exists a: nat, b: nat, c: nat :: DiscoveriesAt(flows, f, a, b, c)
  }

  lemma ChildOfType(flows: seq<Flow>, parent: Flow, t: FlowType) returns (k: nat)
    requires exists c :: c in Children(flows, parent) && c.flowType == t
    requires forall c :: c in Children(flows, parent) ==> c.status.Completed?
    ensures DiscoveryDone(flows, parent, t, k)
  {
    var p := (f: Flow) => f.parentFlowId == Some(parent.flowId);
    var c :| c in Children(flows, parent) && c.flowType == t;
    FilterMembers(p, flows);
    assert Children(flows, parent) == Filter(p, flows);
    k :| 0 <= k < |flows| && flows[k] == c;
  }

  /** Three elements pass the test, at three positions, exactly if no others do. */
  lemma ThreePositions<T(!new)>(p: T -> bool, xs: seq<T>, a: nat, b: nat, c: nat)
    requires a < |xs| && b < |xs| && c < |xs| && p(xs[a]) && p(xs[b]) && p(xs[c]) && a != b && b != c && a != c
    ensures |Filter(p, xs)| == 3 <==> forall j :: 0 <= j < |xs| && p(xs[j]) ==> j == a || j == b || j == c
  {
    var at: set<int> := {a, b, c};
    FilterPositions(p, xs);
    SubsetCardinality(at, Positions(p, xs));
    assert |at| == 3;
    if |Filter(p, xs)| == 3 {
      forall j | 0 <= j < |xs| && p(xs[j]) ensures j == a || j == b || j == c {
        assert j in Positions(p, xs);
      }
    }
    if forall j :: 0 <= j < |xs| && p(xs[j]) ==> j == a || j == b || j == c {
      assert Positions(p, xs) == at;
    }
  }

  lemma DiscoveriesFound(flows: seq<Flow>, f: Flow)
    requires ExplorationDone(flows, f)
    ensures exists a: nat, b: nat, c: nat :: DiscoveriesAt(flows, f, a, b, c)
  {
    var p := (x: Flow) => x.parentFlowId == Some(f.flowId);
    var a := ChildOfType(flows, f, RepoResourceDiscovery);
    var b := ChildOfType(flows, f, RepoLeanProviderDiscovery);
    var c := ChildOfType(flows, f, RepoMathlibRecon);
    assert Children(flows, f) == Filter(p, flows);
    ThreePositions(p, flows, a, b, c);
    assert forall j :: 0 <= j < |flows| && ChildOf(flows[j], f) ==> p(flows[j]);
    assert DiscoveriesAt(flows, f, a, b, c);
  }

  lemma DiscoveriesAreChildren(flows: seq<Flow>, f: Flow, a: nat, b: nat, c: nat)
    requires DiscoveriesAt(flows, f, a, b, c)
    ensures var children := Children(flows, f);
      && |children| == 3 && flows[a] in children && flows[b] in children && flows[c] in children
      && forall x :: x in children ==> IsDiscovery(x.flowType) && x.status.Completed?
  {
    var p := (x: Flow) => x.parentFlowId == Some(f.flowId);
    ThreePositions(p, flows, a, b, c);
    FilterMembers(p, flows);
    assert Children(flows, f) == Filter(p, flows);
    assert forall j :: 0 <= j < |flows| && p(flows[j]) ==> ChildOf(flows[j], f);
  }

  lemma ResumableIff(flows: seq<Flow>, f: Flow)
    ensures ExplorationDone(flows, f) <==> Resumable(flows, f)
  {
    if ExplorationDone(flows, f) {
      DiscoveriesFound(flows, f);
    }
    if Resumable(flows, f) {
      var a: nat, b: nat, c: nat :| DiscoveriesAt(flows, f, a, b, c);
      DiscoveriesAreChildren(flows, f, a, b, c);
    }
  }

  ghost predicate LastResumableAt(flows: seq<Flow>, k: nat) {
    k < |flows| && Resumable(flows, flows[k]) && forall j :: k < j < |flows| ==> !Resumable(flows, flows[j])
  }

  ghost predicate LastRunnableAt(flows: seq<Flow>, k: nat) {
    && k < |flows| && flows[k].status in [Created, Running]
    && (forall j :: k < j < |flows| ==> flows[j].status !in [Created, Running])
    && forall j :: 0 <= j < |flows| ==> !Resumable(flows, flows[j])
  }

  lemma LastResumableGoes(flows: seq<Flow>, k: nat)
    requires LastResumableAt(flows, k)
    ensures DecideLogic(flows) == Post(Logic(flows[k].scopeId))
  {
    forall f ensures ExplorationDone(flows, f) <==> Resumable(flows, f) {
      ResumableIff(flows, f);
    }
    FilterLast(f => ExplorationDone(flows, f), flows, k);
    var resumable, runnable := ResumableFlows(flows), RunnableFlows(flows);
    assert runnable[|runnable| - 1] == resumable[|resumable| - 1];
  }

  lemma LastRunnableGoes(flows: seq<Flow>, k: nat)
    requires LastRunnableAt(flows, k)
    ensures DecideLogic(flows) == Post(Logic(flows[k].scopeId))
  {
    forall f ensures ExplorationDone(flows, f) <==> Resumable(flows, f) {
      ResumableIff(flows, f);
    }
    FilterNone(f => ExplorationDone(flows, f), flows);
    FilterLast(f => Runnable(f), flows, k);
    assert RunnableFlows(flows) == RunningFlows(flows);
  }

  lemma SomethingGoes(flows: seq<Flow>) returns (k: nat)
    requires DecideLogic(flows).action.Some?
    ensures LastResumableAt(flows, k) || LastRunnableAt(flows, k)
  {
    forall f ensures ExplorationDone(flows, f) <==> Resumable(flows, f) {
      ResumableIff(flows, f);
    }
    if ResumableFlows(flows) != [] {
      k := FilteredLast(f => ExplorationDone(flows, f), flows);
      assert LastResumableAt(flows, k);
    } else {
      FilterNone(f => ExplorationDone(flows, f), flows);
      k := FilteredLast(f => Runnable(f), flows);
      assert LastRunnableAt(flows, k);
    }
  }

  lemma GoingFlow(flows: seq<Flow>, k: nat)
    requires LastResumableAt(flows, k) || LastRunnableAt(flows, k)
    ensures DecideLogic(flows) == Post(Logic(flows[k].scopeId))
  {
    if LastResumableAt(flows, k) {
      LastResumableGoes(flows, k);
    } else {
      LastRunnableGoes(flows, k);
    }
  }

  /** The last Coordinator that may leave its exploration, else the last created or running flow. */
  ghost predicate Goes(flows: seq<Flow>, k: nat) {
    LastResumableAt(flows, k) || LastRunnableAt(flows, k)
  }

  lemma DecideLogicIff(flows: seq<Flow>, scope: string)
    ensures DecideLogic(flows) == Post(Logic(scope)) <==> exists k: nat :: Goes(flows, k) && flows[k].scopeId == scope
  {
    if DecideLogic(flows) == Post(Logic(scope)) {
      var k := SomethingGoes(flows);
      GoingFlow(flows, k);
      assert Goes(flows, k);
    }
    if exists k: nat :: Goes(flows, k) && flows[k].scopeId == scope {
      var k: nat :| Goes(flows, k) && flows[k].scopeId == scope;
      GoingFlow(flows, k);
    }
  }

  /** The logic action is given exactly when no agent is left to start, for the flow that goes first. */
  lemma PreparationLogicIff(s: Snapshot, scope: string)
    ensures Decide(s) == Post(Logic(scope)) <==>
            && MayPrepare(s) && NoCoordinatorStep(s) && AgentsKnown(s)
            && (forall k :: 0 <= k < |s.steps| ==> !Startable(s.steps[k]))
            && exists k: nat :: Goes(s.flows, k) && s.flows[k].scopeId == scope
  {
    FlowGuardsIff(s);
    StepGuardsIff(s);
    StartableAgentsStart(s.steps);
    DecideLogicIff(s.flows, scope);
  }
}
