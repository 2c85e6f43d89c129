/** What the deciders promise: independence of tree order, and which frontier each action needs. */
module FrontierLaws {
  import opened Collections
  import opened Ordering
  import opened Filtering
  import opened Frontier

  /** The same snapshot with its flows and its steps listed in another order. */
  ghost predicate Reordered(s: Snapshot, t: Snapshot) {
    && multiset(t.flows) == multiset(s.flows) && multiset(t.steps) == multiset(s.steps)
    && t == s.(flows := t.flows, steps := t.steps)
  }

  lemma ChildrenReordered(flows: seq<Flow>, gs: seq<Flow>, f: Flow)
    requires multiset(flows) == multiset(gs)
    ensures multiset(Children(flows, f)) == multiset(Children(gs, f))
  {
    var p := (c: Flow) => c.parentFlowId == Some(f.flowId);
    FilterReordered(p, flows, p, gs);
    assert Children(flows, f) == Filter(p, flows) && Children(gs, f) == Filter(p, gs);
  }

  lemma ExplorationDoneReordered(flows: seq<Flow>, gs: seq<Flow>, f: Flow)
    requires multiset(flows) == multiset(gs)
    ensures ExplorationDone(flows, f) == ExplorationDone(gs, f)
  {
    ChildrenReordered(flows, gs, f);
    SameMembers(Children(flows, f), Children(gs, f));
  }

  lemma ResumableMembers(flows: seq<Flow>)
    ensures forall f :: f in ResumableFlows(flows) <==> f in flows && ExplorationDone(flows, f)
  {
    FilterMembers(f => ExplorationDone(flows, f), flows);
  }

  lemma RunningMembers(flows: seq<Flow>)
    ensures forall f :: f in RunningFlows(flows) <==> f in flows && Runnable(f)
  {
    FilterMembers(f => Runnable(f), flows);
  }

  lemma StartableMembers(steps: seq<Step>)
    ensures forall s :: s in StartableAgents(steps) <==> s in steps && IsPrepAgent(s.agentType) && s.status.StepCreated?
  {
    var p := (s: Step) => IsPrepAgent(s.agentType) && s.status.StepCreated?;
    FilterMembers(p, steps);
    assert StartableAgents(steps) == Filter(p, steps);
  }

  lemma CoordinatorStepMembers(steps: seq<Step>)
    ensures forall s :: s in CoordinatorSteps(steps) <==> s in steps && s.agentType.CoordinatorAgent?
  {
    var p := (s: Step) => s.agentType.CoordinatorAgent?;
    FilterMembers(p, steps);
    assert CoordinatorSteps(steps) == Filter(p, steps);
  }

  lemma LiveCoordinatorMembers(flows: seq<Flow>)
    ensures forall f :: f in LiveCoordinators(flows) <==> f in flows && IsLiveCoordinator(f)
  {
    FilterMembers(f => IsLiveCoordinator(f), flows);
  }

  lemma AwaitedMembers(flows: seq<Flow>, c: Flow, st: CoordinatorState)
    ensures forall f :: f in AwaitedChildren(flows, c, st) <==>
              f in flows && f.parentFlowId == Some(c.flowId) && f.parentDispatchStepId == st.waitingDispatchStepId
  {
    var p := (f: Flow) => f.parentFlowId == Some(c.flowId) && f.parentDispatchStepId == st.waitingDispatchStepId;
    FilterMembers(p, flows);
    assert AwaitedChildren(flows, c, st) == Filter(p, flows);
  }

  lemma CuratorMembers(steps: seq<Step>, child: Flow)
    ensures forall s :: s in Curators(steps, child) <==>
              s in steps && s.agentType.ResourceCuratorAgent? && s.flowId == child.flowId
  {
    var p := (s: Step) => s.agentType.ResourceCuratorAgent? && s.flowId == child.flowId;
    FilterMembers(p, steps);
    assert Curators(steps, child) == Filter(p, steps);
  }

  lemma RunnableReordered(flows: seq<Flow>, gs: seq<Flow>)
    requires multiset(flows) == multiset(gs)
    ensures |RunnableFlows(flows)| == |RunnableFlows(gs)|
    ensures ResumableFlows(flows) == [] <==> ResumableFlows(gs) == []
  {
    forall f ensures ExplorationDone(flows, f) == ExplorationDone(gs, f) {
      ExplorationDoneReordered(flows, gs, f);
    }
    FilterReordered(f => Runnable(f), flows, f => Runnable(f), gs);
    FilterReordered(f => ExplorationDone(flows, f), flows, f => ExplorationDone(gs, f), gs);
  }

  lemma CoordinatorStepsReordered(xs: seq<Step>, ys: seq<Step>)
    requires multiset(xs) == multiset(ys)
    ensures |CoordinatorSteps(xs)| == |CoordinatorSteps(ys)|
    ensures |CoordinatorSteps(xs)| == 1 ==> CoordinatorSteps(xs) == CoordinatorSteps(ys)
  {
    var p := (s: Step) => s.agentType.CoordinatorAgent?;
    FilterReordered(p, xs, p, ys);
    assert CoordinatorSteps(xs) == Filter(p, xs) && CoordinatorSteps(ys) == Filter(p, ys);
  }

  lemma StartableReordered(xs: seq<Step>, ys: seq<Step>)
    requires multiset(xs) == multiset(ys)
    ensures |StartableAgents(xs)| == |StartableAgents(ys)|
  {
    var p := (s: Step) => IsPrepAgent(s.agentType) && s.status.StepCreated?;
    FilterReordered(p, xs, p, ys);
    assert StartableAgents(xs) == Filter(p, xs) && StartableAgents(ys) == Filter(p, ys);
  }

  lemma GuardsReordered(s: Snapshot, t: Snapshot)
    requires Reordered(s, t)
    ensures CoordinatorStarted(s.flows) == CoordinatorStarted(t.flows)
    ensures HasForeignFlow(s.flows) == HasForeignFlow(t.flows)
    ensures HasStuckFlow(s.flows) == HasStuckFlow(t.flows)
    ensures HasUnidentifiedAgent(s.steps) == HasUnidentifiedAgent(t.steps)
  {
    SameMembers(s.flows, t.flows);
    SameMembers(s.steps, t.steps);
  }

  /** Tree order never changes the disposition of `decide`. */
  lemma DecideDispositionIgnoresOrder(s: Snapshot, t: Snapshot)
    requires Reordered(s, t)
    ensures Decide(s).disposition == Decide(t).disposition
  {
    SameMembers(s.flows, t.flows);
    SameMembers(s.steps, t.steps);
    CoordinatorStepsReordered(s.steps, t.steps);
    StartableReordered(s.steps, t.steps);
    RunnableReordered(s.flows, t.flows);
    GuardsReordered(s, t);
    forall k ensures TypeCompleted(s.flows, k) == TypeCompleted(t.flows, k) {
    }
    assert PreparationGate(s.flows) == PreparationGate(t.flows);
    assert PreparationComplete(s.flows, s.steps) == PreparationComplete(t.flows, t.steps);
  }

  // ----- when the action of `decide` depends on tree order -----

  /** Every body some order of the snapshot would pick. */
  function Candidates(s: Snapshot): set<Action> {
    var resumable := ResumableFlows(s.flows);
    if StartableAgents(s.steps) != [] then set st | st in StartableAgents(s.steps) :: AgentStep(st.stepId)
    else if resumable != [] then set f | f in resumable :: Logic(f.scopeId)
    else set f | f in RunningFlows(s.flows) :: Logic(f.scopeId)
  }

  lemma CandidatesReordered(s: Snapshot, t: Snapshot)
    requires Reordered(s, t)
    ensures Candidates(s) == Candidates(t)
  {
    SameStartable(s.steps, t.steps);
    SameChoices(s.flows, t.flows);
  }

  lemma SameStartable(xs: seq<Step>, ys: seq<Step>)
    requires multiset(xs) == multiset(ys)
    ensures forall st :: st in StartableAgents(xs) <==> st in StartableAgents(ys)
    ensures StartableAgents(xs) == [] <==> StartableAgents(ys) == []
  {
    SameMembers(xs, ys);
    StartableReordered(xs, ys);
    StartableMembers(xs);
    StartableMembers(ys);
  }

  lemma SameChoices(flows: seq<Flow>, gs: seq<Flow>)
    requires multiset(flows) == multiset(gs)
    ensures forall f :: f in ResumableFlows(flows) <==> f in ResumableFlows(gs)
    ensures forall f :: f in RunningFlows(flows) <==> f in RunningFlows(gs)
    ensures ResumableFlows(flows) == [] <==> ResumableFlows(gs) == []
  {
    SameMembers(flows, gs);
    RunnableReordered(flows, gs);
    ResumableMembers(flows);
    ResumableMembers(gs);
    RunningMembers(flows);
    RunningMembers(gs);
    forall f ensures ExplorationDone(flows, f) == ExplorationDone(gs, f) {
      ExplorationDoneReordered(flows, gs, f);
    }
  }

  /** The action taken is a candidate. */
  lemma DecideTakesACandidate(s: Snapshot)
    requires Decide(s).disposition == Advance
    ensures Decide(s).action.Some? && Decide(s).action.value in Candidates(s)
  {
  }

  /** And every candidate is taken under some order. */
  lemma EveryCandidateIsTaken(s: Snapshot, a: Action) returns (t: Snapshot)
    requires Decide(s).disposition == Advance && a in Candidates(s)
    ensures Reordered(s, t) && Decide(t) == Post(a)
  {
    if StartableAgents(s.steps) != [] {
      t := FrontAgent(s, a);
    } else {
      var f := CandidateFlow(s, a);
      t := LastFlow(s, f);
      TakesLast(s.flows, t.flows, f);
    }
  }

  lemma CandidateFlow(s: Snapshot, a: Action) returns (f: Flow)
    requires StartableAgents(s.steps) == [] && a in Candidates(s)
    ensures f in s.flows && a == Logic(f.scopeId)
    ensures Choosable(s.flows, f)
  {
    if ResumableFlows(s.flows) != [] {
      f :| f in ResumableFlows(s.flows) && a == Logic(f.scopeId);
      ResumableMembers(s.flows);
    } else {
      f :| f in RunningFlows(s.flows) && a == Logic(f.scopeId);
      RunningMembers(s.flows);
    }
  }

  /** The flow is one the logic branch may take, if it is listed last. */
  ghost predicate Choosable(flows: seq<Flow>, f: Flow) {
    if ResumableFlows(flows) != [] then ExplorationDone(flows, f) else Runnable(f)
  }

  lemma TakesLast(flows: seq<Flow>, gs: seq<Flow>, f: Flow)
    requires multiset(flows) == multiset(gs) && gs != [] && gs[|gs| - 1] == f
    requires Choosable(flows, f)
    ensures DecideLogic(gs) == Post(Logic(f.scopeId))
  {
    RunnableReordered(flows, gs);
    if ResumableFlows(flows) != [] {
      ExplorationDoneReordered(flows, gs, f);
      TakesLastResumable(gs);
    } else {
      TakesLastRunnable(gs);
    }
  }

  lemma TakesLastResumable(flows: seq<Flow>)
    requires flows != [] && ExplorationDone(flows, flows[|flows| - 1])
    ensures DecideLogic(flows) == Post(Logic(flows[|flows| - 1].scopeId))
  {
    LastKept(x => ExplorationDone(flows, x), flows);
    var resumable := ResumableFlows(flows);
    var runnable := RunnableFlows(flows);
    assert runnable[|runnable| - 1] == resumable[|resumable| - 1];
  }

  lemma TakesLastRunnable(flows: seq<Flow>)
    requires ResumableFlows(flows) == []
    requires flows != [] && Runnable(flows[|flows| - 1])
    ensures DecideLogic(flows) == Post(Logic(flows[|flows| - 1].scopeId))
  {
    LastKept(x => Runnable(x), flows);
    assert RunnableFlows(flows) == RunningFlows(flows);
  }

  lemma FrontAgent(s: Snapshot, a: Action) returns (t: Snapshot)
    requires Decide(s).disposition == Advance && StartableAgents(s.steps) != [] && a in Candidates(s)
    ensures Reordered(s, t) && Decide(t) == Post(a)
  {
    var st := CandidateStep(s, a);
    var rest := MoveElement(s.steps, st);
    t := s.(steps := [st] + rest);
    DecideDispositionIgnoresOrder(s, t);
    FirstStartable(st, rest);
    AdvancesByAgent(t);
  }

  lemma CandidateStep(s: Snapshot, a: Action) returns (st: Step)
    requires StartableAgents(s.steps) != [] && a in Candidates(s)
    ensures st in s.steps && IsPrepAgent(st.agentType) && st.status.StepCreated? && a == AgentStep(st.stepId)
  {
    st :| st in StartableAgents(s.steps) && a == AgentStep(st.stepId);
    StartableMembers(s.steps);
  }

  lemma FirstStartable(st: Step, rest: seq<Step>)
    requires IsPrepAgent(st.agentType) && st.status.StepCreated?
    ensures StartableAgents([st] + rest) != [] && StartableAgents([st] + rest)[0] == st
  {
  }

  lemma AdvancesByAgent(t: Snapshot)
    requires Decide(t).disposition == Advance && StartableAgents(t.steps) != []
    ensures Decide(t) == Post(AgentStep(StartableAgents(t.steps)[0].stepId))
  {
  }

  lemma LastFlow(s: Snapshot, f: Flow) returns (t: Snapshot)
    requires Decide(s).disposition == Advance && StartableAgents(s.steps) == [] && f in s.flows
    ensures Reordered(s, t) && t.flows != [] && t.flows[|t.flows| - 1] == f
    ensures Decide(t) == DecideLogic(t.flows)
  {
    var rest := MoveElement(s.flows, f);
    t := s.(flows := rest + [f]);
    DecideDispositionIgnoresOrder(s, t);
    AdvancesByLogic(t);
  }

  lemma AdvancesByLogic(t: Snapshot)
    requires Decide(t).disposition == Advance && StartableAgents(t.steps) == []
    ensures Decide(t) == DecideLogic(t.flows)
  {
  }

  lemma LastKept<T>(p: T -> bool, xs: seq<T>)
    requires xs != [] && p(xs[|xs| - 1])
    ensures Filter(p, xs) != [] && Filter(p, xs)[|Filter(p, xs)| - 1] == xs[|xs| - 1]
  {
    var n := |xs| - 1;
    FilterAppend(p, xs[..n], [xs[n]]);
    assert xs == xs[..n] + [xs[n]];
  }

  /** The action `decide` posts is independent of tree order exactly when all candidates are one body. */
  lemma DecideActionIgnoresOrderIff(s: Snapshot)
    requires Decide(s).disposition == Advance
    ensures (forall t :: Reordered(s, t) ==> Decide(t) == Decide(s))
            <==> (forall a, b :: a in Candidates(s) && b in Candidates(s) ==> a == b)
  {
    DecideTakesACandidate(s);
    if forall a, b :: a in Candidates(s) && b in Candidates(s) ==> a == b {
      forall t | Reordered(s, t) ensures Decide(t) == Decide(s) {
        DecideDispositionIgnoresOrder(s, t);
        CandidatesReordered(s, t);
        DecideTakesACandidate(t);
        assert Decide(t).action.value == Decide(s).action.value;
      }
    } else {
      var a, b :| a in Candidates(s) && b in Candidates(s) && a != b;
      var t := EveryCandidateIsTaken(s, a);
      var u := EveryCandidateIsTaken(s, b);
    }
  }

  /** Two startable preparation agents: the posted step is whichever the tree lists first. */
  lemma DecideActionDependsOnOrder() returns (s: Snapshot, t: Snapshot)
    ensures Reordered(s, t) && Decide(s).disposition == Advance && Decide(s).action != Decide(t).action
  {
    var a := Step("a", "f", "", StepCreated, SourceIndexBuilderAgent, false);
    var b := Step("b", "f", "", StepCreated, SourceIndexReviewerAgent, false);
    var f := Flow("f", SourceIndexBuild, Running, "x", None, None, None, None, false, []);
    var either := Snapshot("r", Runtime(true, [], []), [f], [a, b], None, false, None, None);
    StartableAgentsAdvance(either, a);
    StartableAgentsAdvance(either, b);
    s := EveryCandidateIsTaken(either, AgentStep("a"));
    t := EveryCandidateIsTaken(either, AgentStep("b"));
  }

  lemma StartableAgentsAdvance(s: Snapshot, a: Step)
    requires !Busy(s.runtime) && s.lease == None && |s.flows| == 1 && a in s.steps
    requires var f := s.flows[0]; IsPrepFlow(f.flowType) && f.steps == [] && !Stuck(f)
    requires forall st :: st in s.steps ==> IsPrepAgent(st.agentType) && st.status.StepCreated?
    ensures Decide(s).disposition == Advance && AgentStep(a.stepId) in Candidates(s)
  {
    CoordinatorStepMembers(s.steps);
    assert CoordinatorSteps(s.steps) != [] ==> CoordinatorSteps(s.steps)[0] in CoordinatorSteps(s.steps);
    StartableMembers(s.steps);
    assert a in StartableAgents(s.steps);
  }

  // ----- execution ignores order altogether -----

  lemma AwaitedReordered(flows: seq<Flow>, gs: seq<Flow>, c: Flow, st: CoordinatorState)
    requires multiset(flows) == multiset(gs)
    ensures |AwaitedChildren(flows, c, st)| == |AwaitedChildren(gs, c, st)|
    ensures |AwaitedChildren(flows, c, st)| == 1 ==> AwaitedChildren(flows, c, st) == AwaitedChildren(gs, c, st)
  {
    var p := (f: Flow) => f.parentFlowId == Some(c.flowId) && f.parentDispatchStepId == st.waitingDispatchStepId;
    FilterReordered(p, flows, p, gs);
    assert AwaitedChildren(flows, c, st) == Filter(p, flows) && AwaitedChildren(gs, c, st) == Filter(p, gs);
  }

  lemma CuratorsReordered(xs: seq<Step>, ys: seq<Step>, child: Flow)
    requires multiset(xs) == multiset(ys)
    ensures |Curators(xs, child)| == |Curators(ys, child)|
  {
    var p := (s: Step) => s.agentType.ResourceCuratorAgent? && s.flowId == child.flowId;
    FilterReordered(p, xs, p, ys);
    assert Curators(xs, child) == Filter(p, xs) && Curators(ys, child) == Filter(p, ys);
  }

  lemma CoordinatorVerdictReordered(s: Snapshot, t: Snapshot, c: Flow)
    requires Reordered(s, t)
    ensures DecideForCoordinator(s, c) == DecideForCoordinator(t, c)
  {
    var st := if s.coordinatorState.Some? then s.coordinatorState.value else NO_STATE;
    SameMembers(s.steps, t.steps);
    CoordinatorStepsReordered(s.steps, t.steps);
    ReviewedChildReordered(s, t, c, st);
    ResourceRequestReordered(s, t, c, st);
    assert HasAgentStep(s.steps) == HasAgentStep(t.steps);
    assert DecideContentBatch(s, c, st) == DecideContentBatch(t, c, st);
    if CoordinatorSteps(s.steps) != [] {
      CoordinatorStepVerdictReordered(s.steps, t.steps, c);
    }
  }

  lemma CoordinatorStepVerdictReordered(xs: seq<Step>, ys: seq<Step>, c: Flow)
    requires multiset(xs) == multiset(ys) && CoordinatorSteps(xs) != [] && CoordinatorSteps(ys) != []
    ensures DecideCoordinatorStep(xs, CoordinatorSteps(xs)[0], c) ==
            DecideCoordinatorStep(ys, CoordinatorSteps(ys)[0], c)
  {
    SingletonReordered(xs, ys);
  }

  lemma ReviewedChildReordered(s: Snapshot, t: Snapshot, c: Flow, st: CoordinatorState)
    requires Reordered(s, t)
    ensures ReviewedChildCompleted(s, c, st) == ReviewedChildCompleted(t, c, st)
  {
    AwaitedReordered(s.flows, t.flows, c, st);
    SameMembers(s.steps, t.steps);
  }

  lemma ResourceRequestReordered(s: Snapshot, t: Snapshot, c: Flow, st: CoordinatorState)
    requires Reordered(s, t)
    ensures DecideResourceRequest(s, c, st) == DecideResourceRequest(t, c, st)
  {
    AwaitedReordered(s.flows, t.flows, c, st);
    SingletonReordered(s.steps, t.steps);
    assert HasAgentStep(s.steps) == HasAgentStep(t.steps);
    var children := AwaitedChildren(s.flows, c, st);
    if |children| == 1 {
      assert AwaitedChildren(t.flows, c, st) == children;
      CuratorsReordered(s.steps, t.steps, children[0]);
    }
  }

  lemma LiveCoordinatorsReordered(flows: seq<Flow>, gs: seq<Flow>)
    requires multiset(flows) == multiset(gs)
    ensures |LiveCoordinators(flows)| == |LiveCoordinators(gs)|
    ensures |LiveCoordinators(flows)| == 1 ==> LiveCoordinators(flows) == LiveCoordinators(gs)
  {
    FilterReordered(f => IsLiveCoordinator(f), flows, f => IsLiveCoordinator(f), gs);
  }

  lemma EverythingCompletedReordered(s: Snapshot, t: Snapshot)
    requires Reordered(s, t)
    ensures EverythingCompleted(s) == EverythingCompleted(t)
  {
    SameMembers(s.flows, t.flows);
    SameMembers(s.steps, t.steps);
  }

  /** Tree order changes neither the disposition nor the action of `decide_execution`. */
  lemma DecideExecutionIgnoresOrder(s: Snapshot, t: Snapshot, reviewed: Option<string>)
    requires Reordered(s, t)
    ensures DecideExecution(s, reviewed) == DecideExecution(t, reviewed)
  {
    LiveCoordinatorsReordered(s.flows, t.flows);
    EverythingCompletedReordered(s, t);
    if |LiveCoordinators(s.flows)| == 1 {
      CoordinatorVerdictReordered(s, t, LiveCoordinators(s.flows)[0]);
    }
  }

  // ----- what an advance needs -----

  /** A preparation advance needs an idle paused runtime and no Coordinator agent step, live or ever started. */
  lemma PreparationNeverTouchesCoordinator(s: Snapshot)
    requires Decide(s).disposition == Advance
    ensures !Busy(s.runtime) && !HasActiveLease(s)
    ensures forall st :: st in s.steps ==> !st.agentType.CoordinatorAgent?
    ensures forall f, st :: f in s.flows && st in f.steps && st.started ==> !st.agentType.CoordinatorAgent?
  {
  }

  /** A step the frontier leaves for the logic action: an agent that is not to be started, or no agent at all. */
  predicate LeftAlone(st: Step) {
    if st.agentType.NoAgent? then !Mentions("agent", st.stepType)
    else IsPrepAgent(st.agentType) && !st.status.StepCreated?
  }

  lemma LogicLeavesAlone(s: Snapshot)
    requires Decide(s).disposition == Advance && StartableAgents(s.steps) == []
    ensures forall st :: st in s.steps ==> LeftAlone(st)
  {
    StartableMembers(s.steps);
    forall st | st in s.steps ensures LeftAlone(st) {
      assert st !in StartableAgents(s.steps);
      assert !UnidentifiedAgent(st);
    }
  }

  lemma LogicScope(s: Snapshot) returns (f: Flow)
    requires Decide(s).disposition == Advance && StartableAgents(s.steps) == []
    ensures f in s.flows && Decide(s).action.value == Logic(f.scopeId) && !Stuck(f)
    ensures Runnable(f) || ExplorationDone(s.flows, f)
  {
    DecideTakesACandidate(s);
    f := CandidateFlow(s, Decide(s).action.value);
    assert Unfinished(f) && !Stuck(f);
  }

  /** The named step is a created preparation agent; logic runs only when there is none, nor an unidentified agent. */
  lemma PreparationActionNamesItsFrontier(s: Snapshot)
    requires Decide(s).disposition == Advance
    ensures match Decide(s).action.value
      case AgentStep(id) =>
        exists st :: st in s.steps && st.stepId == id && IsPrepAgent(st.agentType) && st.status.StepCreated?
      case Logic(scope) =>
        && (forall st :: st in s.steps ==> LeftAlone(st))
        && exists f :: f in s.flows && f.scopeId == scope && !Stuck(f) && (Runnable(f) || ExplorationDone(s.flows, f))
      case ContentBatch(_, _, _, _) => false
  {
    if StartableAgents(s.steps) == [] {
      LogicLeavesAlone(s);
      var f := LogicScope(s);
    } else {
      StartableMembers(s.steps);
      assert StartableAgents(s.steps)[0] in StartableAgents(s.steps);
    }
  }

  /** Every preparation advance leaves from a healthy frontier of known preparation flows. */
  lemma PreparationAdvancesFromHealthyFlows(s: Snapshot)
    requires Decide(s).disposition == Advance
    ensures s.flows != [] && forall f :: f in s.flows ==> IsPrepFlow(f.flowType)
    ensures forall f :: f in s.flows && !f.status.Completed? ==> !Stuck(f) && !CurrentStepStuck(f)
  {
  }

  lemma LoneCoordinatorStep(steps: seq<Step>)
    requires |steps| == 1 && steps[0].agentType.CoordinatorAgent?
    ensures CoordinatorSteps(steps) == steps
  {
    var p := (s: Step) => s.agentType.CoordinatorAgent?;
    assert steps[1..] == [];
    assert CoordinatorSteps(steps) == Filter(p, steps) == [steps[0]] + Filter(p, steps[1..]);
  }

  lemma PreparationCompleteIff(flows: seq<Flow>, steps: seq<Step>)
    ensures CoordinatorSteps(steps) != [] && PreparationComplete(flows, steps) <==>
      && |steps| == 1 && steps[0].agentType.CoordinatorAgent? && steps[0].status.StepCreated? && !steps[0].started
      && PreparationGate(flows)
      && forall f :: f in flows && Unfinished(f) ==> f.flowType.NativeRepoCoordinator?
  {
    CoordinatorStepMembers(steps);
    if |steps| == 1 && steps[0].agentType.CoordinatorAgent? {
      LoneCoordinatorStep(steps);
    }
    assert CoordinatorSteps(steps) != [] ==> CoordinatorSteps(steps)[0] in CoordinatorSteps(steps);
  }

  /** The only live Coordinator Flow of an execution snapshot that advances. */
  lemma ExecutionHasOneCoordinator(s: Snapshot, reviewed: Option<string>) returns (c: Flow)
    requires DecideExecution(s, reviewed).disposition == Advance
    ensures c in s.flows && IsLiveCoordinator(c)
    ensures forall f :: f in s.flows && IsLiveCoordinator(f) ==> f == c
    ensures !Busy(s.runtime) && !HasActiveLease(s) && DecideExecution(s, reviewed) == DecideForCoordinator(s, c)
    ensures !c.manualPauseActive && !c.status.Suspended? && !CurrentStepStuck(c)
    ensures if s.coordinatorState.Some? then s.coordinatorState.value.phase == c.phase else c.phase == None
    ensures LiveCoordinators(s.flows) == [c]
  {
    c := LiveCoordinators(s.flows)[0];
    assert LiveCoordinators(s.flows) == [c];
    LiveCoordinatorMembers(s.flows);
    assert c in LiveCoordinators(s.flows);
    forall f | f in s.flows && IsLiveCoordinator(f) ensures f == c {
      assert f in LiveCoordinators(s.flows);
    }
  }

  lemma CoordinatorStepIsTheOnlyStep(steps: seq<Step>, c: Flow, id: string)
    requires CoordinatorSteps(steps) != []
    requires DecideCoordinatorStep(steps, CoordinatorSteps(steps)[0], c) == Post(AgentStep(id))
    ensures |steps| == 1 && steps[0].stepId == id && steps[0].status.StepCreated? && !steps[0].started
    ensures steps[0].agentType.CoordinatorAgent? && steps[0].flowId == c.flowId && c.currentStepId == Some(id)
  {
    CoordinatorStepMembers(steps);
    assert CoordinatorSteps(steps)[0] in CoordinatorSteps(steps);
    assert steps[0] in steps;
  }

  lemma CuratorIsTheOnlyStep(s: Snapshot, c: Flow, st: CoordinatorState, id: string) returns (child: Flow)
    requires DecideResourceRequest(s, c, st) == Post(AgentStep(id))
    ensures |s.steps| == 1 && s.steps[0].stepId == id && s.steps[0].status.StepCreated? && !s.steps[0].started
    ensures s.steps[0].agentType.ResourceCuratorAgent? && s.steps[0].flowId == child.flowId
    ensures child in s.flows && child.flowType.ResourceCuration? && !child.manualPauseActive
  {
    child := AwaitedChildren(s.flows, c, st)[0];
    AwaitedMembers(s.flows, c, st);
    assert child in AwaitedChildren(s.flows, c, st);
    CuratorMembers(s.steps, child);
    assert Curators(s.steps, child)[0] in Curators(s.steps, child);
  }

  /** An execution agent action names the one live step, created and unstarted, of one of two agent types. */
  lemma ExecutionAgentActionNamesTheOnlyStep(s: Snapshot, reviewed: Option<string>, id: string)
    requires DecideExecution(s, reviewed) == Post(AgentStep(id))
    ensures |s.steps| == 1
    ensures var st := s.steps[0];
      && st.stepId == id && st.status.StepCreated? && !st.started
      && (st.agentType.CoordinatorAgent? || st.agentType.ResourceCuratorAgent?)
    ensures exists f :: f in s.flows && f.flowId == s.steps[0].flowId && !f.manualPauseActive
              && (if s.steps[0].agentType.CoordinatorAgent? then IsLiveCoordinator(f) && f.currentStepId == Some(id)
                  else f.flowType.ResourceCuration?)
  {
    var c := ExecutionHasOneCoordinator(s, reviewed);
    var st := if s.coordinatorState.Some? then s.coordinatorState.value else NO_STATE;
    if CoordinatorSteps(s.steps) != [] {
      CoordinatorStepIsTheOnlyStep(s.steps, c, id);
    } else {
      assert DecideForCoordinator(s, c) == DecideResourceRequest(s, c, st);
      var child := CuratorIsTheOnlyStep(s, c, st, id);
    }
  }

  /** A supporting-material request; while it is awaited, its one resource child is healthy. */
  ghost predicate SupportingRequest(s: Snapshot, c: Flow) {
    && s.coordinatorState.Some?
    && s.coordinatorState.value.pendingDispatchKind == Some(ResourceRequest)
    && s.coordinatorState.value.requestedUse == Some(SupportingMaterial)
    && (c.phase == Some(WaitingResourceRequest) ==>
          exists child :: AwaitedChildren(s.flows, c, s.coordinatorState.value) == [child]
            && child.flowType.ResourceCuration? && !child.manualPauseActive
            && (child.status.Created? || child.status.Running? || child.status.Completed?))
  }

  /** An execution logic action runs only with no live agent step, in the scope of the one live Coordinator. */
  lemma ExecutionLogicNeedsNoAgentStep(s: Snapshot, reviewed: Option<string>, scope: string)
    requires DecideExecution(s, reviewed) == Post(Logic(scope))
    ensures forall st :: st in s.steps ==> st.agentType.NoAgent?
    ensures exists c :: c in s.flows && IsLiveCoordinator(c) && c.scopeId == scope
              && (InAgentPhase(c.phase) || c.phase == Some(MarkRepoReady)
                  || (InResourcePhase(c.phase) && SupportingRequest(s, c)))
  {
    var c := ExecutionHasOneCoordinator(s, reviewed);
    assert !HasAgentStep(s.steps);
    if InResourcePhase(c.phase) {
      var st := s.coordinatorState.value;
      AwaitedMembers(s.flows, c, st);
      assert DecideForCoordinator(s, c) == DecideResourceRequest(s, c, st);
      assert SupportingRequest(s, c);
    }
  }

  /** A content batch carries the complete persisted identity of the one live Coordinator's pending dispatch. */
  lemma ExecutionBatchCarriesItsIdentity(s: Snapshot, reviewed: Option<string>, body: Action)
    requires body.ContentBatch? && DecideExecution(s, reviewed) == Post(body)
    ensures s.coordinatorState.Some?
    ensures var st := s.coordinatorState.value;
      && body.repoKey == s.repoKey && Some(body.expectedSourceSubmissionId) == st.sourceSubmissionId
      && body.expectedSourceSubmissionId != "" && st.contentNodePaths != []
      && (body.expectedDispatchStepId.Some? ==> body.expectedDispatchStepId == st.waitingDispatchStepId)
      && (st.phase == Some(WaitingContentTasks) ==> body.expectedDispatchStepId.Some?)
    ensures exists c :: c in s.flows && IsLiveCoordinator(c) && c.flowId == body.coordinatorFlowId
              && c.phase == s.coordinatorState.value.phase
  {
    var c := ExecutionHasOneCoordinator(s, reviewed);
  }

  /** With a review pending, only the parent's logic action is admitted, for the exact acknowledged lease. */
  lemma ReviewedLeaseAdmitsOnlyParentLogic(s: Snapshot, reviewed: Option<string>)
    requires s.leaseReviewRequired && DecideExecution(s, reviewed).disposition == Advance
    ensures s.steps == [] && s.lease.Some?
    ensures Some(s.lease.value.leaseId) == reviewed && s.lease.value.status.LeaseTerminal?
    ensures exists c, child :: c in s.flows && child in s.flows && IsLiveCoordinator(c)
              && DecideExecution(s, reviewed) == Post(Logic(c.scopeId))
              && child.parentFlowId == Some(c.flowId) && child.flowType.ResourceCuration? && child.status.Completed?
  {
    var c := ExecutionHasOneCoordinator(s, reviewed);
    var st := if s.coordinatorState.Some? then s.coordinatorState.value else NO_STATE;
    var child := AwaitedChildren(s.flows, c, st)[0];
    AwaitedMembers(s.flows, c, st);
    assert child in AwaitedChildren(s.flows, c, st);
    assert Curators(s.steps, child) == [];
  }

  /** READY exactly when the runtime is idle, every observed flow is completed and no step is pending. */
  lemma ReadyIff(s: Snapshot, reviewed: Option<string>)
    ensures DecideExecution(s, reviewed).disposition == Ready
            <==> && !Busy(s.runtime) && !HasActiveLease(s) && EverythingCompleted(s)
                 && (s.leaseReviewRequired ==> ReviewAcknowledged(s, reviewed))
  {
    LiveCoordinatorMembers(s.flows);
    assert LiveCoordinators(s.flows) != [] ==> LiveCoordinators(s.flows)[0] in LiveCoordinators(s.flows);
  }
}
