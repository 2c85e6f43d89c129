/**
 * Retrying a Coordinator whose last callback ended without a submission (`reset_incomplete_coordinator`): the flow gets
 * a fresh agent and goes back one phase, in one transaction, or nothing changes.
 */
module CoordinatorReset {
  import opened Ordering

  datatype FlowStatus = FlowRunning | FlowFailed | FlowOther(name: string)
  datatype StepStatus = StepCreated | StepRunning | StepCompleted | StepOther(name: string)
  datatype AgentStatus = Idle | Busy | Closed | AgentOther(name: string)

  /** `content` stands for the fields a reset neither reads nor writes. */
  datatype Flow = Flow(flowType: string, scope: string, status: FlowStatus, errorType: Option<string>,
                       finishedAt: Option<string>, currentStep: Option<string>, result: Option<string>,
                       stepIds: seq<string>, phase: string, bindings: map<string, string>, content: string)

  datatype StepResult = NoResult | AgentIncomplete | Coordinator(outcome: string) | OtherResult

  datatype Step = Step(flowId: string, scope: string, stepType: string, status: StepStatus, submitted: bool,
                       failed: bool, result: StepResult, bindings: map<string, string>)

  datatype Agent = Agent(scope: string, agentType: string, status: AgentStatus)

  datatype World = World(flows: map<string, Flow>, steps: map<string, Step>, agents: map<string, Agent>,
                         advancing: bool)

  /** The flow, step and agent an operator names. */
  datatype Request = Request(flowId: string, stepId: string, agentId: string)

  /**
   * What the services answer: the holds, the execution context, the new agent's id (none if creating it fails), whether
   * the second check finds the world as the first did, the commit, and closing the new agent again.
   */
  datatype Answers = Answers(held: bool, contextBuilt: bool, created: Option<string>, undisturbed: bool,
                             committed: bool, closed: bool)

  const ROLE := "coordinator"

  predicate Quiescent(w: World) {
    && !w.advancing
    && (forall a :: a in w.agents ==> w.agents[a].status != Busy)
    && (forall s :: s in w.steps ==> w.steps[s].status != StepRunning && w.steps[s].status != StepCreated)
  }

  predicate Incomplete(r: StepResult) { r.AgentIncomplete? || r == Coordinator("incomplete") }

  predicate BoundTo(bindings: map<string, string>, agentId: string) {
    ROLE in bindings && bindings[ROLE] == agentId
  }

  /** `validate`: the flow failed right after this step of this agent, and nothing followed. */
  predicate AtBoundary(w: World, q: Request) {
    && q.flowId in w.flows && q.stepId in w.steps && q.agentId in w.agents
    && var flow, step, agent := w.flows[q.flowId], w.steps[q.stepId], w.agents[q.agentId];
    && flow.flowType == "native_repo_coordinator" && flow.status == FlowFailed
    && flow.errorType == Some("coordinator_agent_incomplete")
    && flow.currentStep.None? && flow.result.None?
    && |flow.stepIds| > 0 && flow.stepIds[|flow.stepIds| - 1] == q.stepId
    && flow.phase == "coordinator_callback"
    && BoundTo(flow.bindings, q.agentId)
    && step.flowId == q.flowId && step.scope == flow.scope
    && step.stepType == "coordinator_agent_step" && step.status == StepCompleted
    && !step.submitted && !step.failed && Incomplete(step.result)
    && BoundTo(step.bindings, q.agentId)
    && agent.scope == flow.scope && agent.agentType == "CoordinatorAgent" && agent.status == Idle
  }

  /** The agent service never gives out an id twice: closed agents keep theirs. */
  predicate FreshId(w: World, answers: Answers) {
    answers.created.Some? ==> answers.created.value !in w.agents
  }

  function Retried(flow: Flow, agentId: string): Flow {
    flow.(status := FlowRunning, errorType := None, finishedAt := None, phase := "coordinator_agent",
          bindings := flow.bindings[ROLE := agentId])
  }

  class Runtime {
    var flows: map<string, Flow>
    var steps: map<string, Step>
    var agents: map<string, Agent>
    var advancing: bool

    ghost function Now(): World
      reads this
    {
      World(flows, steps, agents, advancing)
    }

    constructor (w: World)
      ensures Now() == w
    {
      flows, steps, agents, advancing := w.flows, w.steps, w.agents, w.advancing;
    }

    method CreateAgent(scope: string, agentType: string, agentId: string)
      modifies this`agents
      ensures agents == old(agents)[agentId := Agent(scope, agentType, Idle)]
    {
      agents := agents[agentId := Agent(scope, agentType, Idle)];
    }

    method CloseAgent(agentId: string, answers: Answers)
      requires agentId in agents
      modifies this`agents
      ensures agents == if answers.closed then old(agents)[agentId := old(agents)[agentId].(status := Closed)]
                        else old(agents)
    {
      if answers.closed {
        agents := agents[agentId := agents[agentId].(status := Closed)];
      }
    }

    /** The edit session: checked again, edited on a copy, and stored only by the commit. */
    method EditFlow(q: Request, newId: string, answers: Answers) returns (ok: bool)
      modifies this`flows
      ensures ok <==> AtBoundary(old(Now()), q) && Quiescent(old(Now())) && answers.undisturbed && answers.committed
      ensures !ok ==> flows == old(flows)
      ensures ok ==> flows == old(flows)[q.flowId := Retried(old(flows)[q.flowId], newId)]
    {
      if !AtBoundary(World(flows, steps, agents, advancing), q)
         || !Quiescent(World(flows, steps, agents, advancing)) || !answers.undisturbed {
        return false;
      }
      var current := flows[q.flowId];
      current := current.(status := FlowRunning);
      current := current.(errorType := None);
      current := current.(finishedAt := None);
      current := current.(phase := "coordinator_agent");
      current := current.(bindings := current.bindings[ROLE := newId]);
      if !answers.committed {
        return false;
      }
      flows := flows[q.flowId := current];
      return true;
    }

    method ResetIncompleteCoordinator(q: Request, answers: Answers) returns (replacement: Option<string>)
      requires FreshId(Now(), answers)
      modifies this
      ensures (Now(), replacement) == Reset(old(Now()), q, answers)
    {
      if !answers.held {
        return None;
      }
      if !Quiescent(World(flows, steps, agents, advancing)) || !AtBoundary(World(flows, steps, agents, advancing), q) {
        return None;
      }
      if !answers.contextBuilt || answers.created.None? {
        return None;
      }
      var newId := answers.created.value;
      ghost var before := Now();
      CreateAgent(flows[q.flowId].scope, "CoordinatorAgent", newId);
      IdleAgentChangesNoCheck(before, q, newId, flows[q.flowId].scope);
      assert Now() == WithAgent(before, newId, Agent(flows[q.flowId].scope, "CoordinatorAgent", Idle));
      var ok := EditFlow(q, newId, answers);
      if !ok {
        CloseAgent(newId, answers);
        assert agents == before.agents[newId := Agent(flows[q.flowId].scope, "CoordinatorAgent", Unused(answers))];
        return None;
      }
      return Some(newId);
    }
  }

  function WithAgent(w: World, agentId: string, agent: Agent): World {
    w.(agents := w.agents[agentId := agent])
  }

  lemma IdleAgentChangesNoCheck(w: World, q: Request, newId: string, scope: string)
    requires newId !in w.agents
    ensures
      var w' := WithAgent(w, newId, Agent(scope, "CoordinatorAgent", Idle));
      && (Quiescent(w) ==> Quiescent(w'))
      && (AtBoundary(w, q) ==> AtBoundary(w', q))
  {
  }

  predicate Accepted(w: World, q: Request, answers: Answers) {
    && answers.held && Quiescent(w) && AtBoundary(w, q)
    && answers.contextBuilt && answers.created.Some? && answers.undisturbed && answers.committed
  }

  /** What becomes of a new agent that is not used. */
  function Unused(answers: Answers): AgentStatus { if answers.closed then Closed else Idle }

  /** One attempt. */
  function Reset(w: World, q: Request, answers: Answers): (World, Option<string>) {
    if !answers.held || !Quiescent(w) || !AtBoundary(w, q) then (w, None)
    else if !answers.contextBuilt || answers.created.None? then (w, None)
    else
      var newId, scope := answers.created.value, w.flows[q.flowId].scope;
      if answers.undisturbed && answers.committed then
        (WithAgent(w, newId, Agent(scope, "CoordinatorAgent", Idle)).(
           flows := w.flows[q.flowId := Retried(w.flows[q.flowId], newId)]),
         Some(newId))
      else (WithAgent(w, newId, Agent(scope, "CoordinatorAgent", Unused(answers))), None)
  }

  // ----- laws -----

  /** Nothing runs: no flow is being advanced, no agent is busy, no step is created or running. */
  predicate NothingRuns(w: World) {
    && w.advancing == false
    && (forall a :: a in w.agents ==> w.agents[a].status in [Idle, Closed] || w.agents[a].status.AgentOther?)
    && (forall s :: s in w.steps ==> w.steps[s].status == StepCompleted || w.steps[s].status.StepOther?)
  }

  /** The Coordinator failed in its callback, after this last step of this agent, which is idle: the three records. */
  predicate FailedInCallback(w: World, q: Request) {
    && q.flowId in w.flows && q.stepId in w.steps && q.agentId in w.agents
    && var flow, step := w.flows[q.flowId], w.steps[q.stepId];
    && flow == Flow("native_repo_coordinator", flow.scope, FlowFailed, Some("coordinator_agent_incomplete"),
                    flow.finishedAt, None, None, flow.stepIds, "coordinator_callback", flow.bindings, flow.content)
    && flow.stepIds != [] && flow.stepIds == flow.stepIds[..|flow.stepIds| - 1] + [q.stepId]
    && step == Step(q.flowId, flow.scope, "coordinator_agent_step", StepCompleted, false, false, step.result,
                    step.bindings)
    && step.result in [AgentIncomplete, Coordinator("incomplete")]
    && "coordinator" in flow.bindings && flow.bindings["coordinator"] == q.agentId
    && "coordinator" in step.bindings && step.bindings["coordinator"] == q.agentId
    && w.agents[q.agentId] == Agent(flow.scope, "CoordinatorAgent", Idle)
  }

  /** An attempt succeeds exactly if the named records are at that boundary, nothing runs and every service answers. */
  lemma ResetSucceedsIff(w: World, q: Request, answers: Answers)
    ensures Reset(w, q, answers).1.Some? <==>
            && NothingRuns(w) && FailedInCallback(w, q)
            && answers.held && answers.contextBuilt && answers.created.Some? && answers.undisturbed && answers.committed
  {
    assert FailedInCallback(w, q) ==> w.flows[q.flowId].stepIds[|w.flows[q.flowId].stepIds| - 1] == q.stepId;
  }

  function OpenAgents(w: World): set<string> {
    set a | a in w.agents && w.agents[a].status != Closed
  }

  /** A success changes status, error, finish time, phase and binding of one flow, and adds one idle agent. */
  lemma SuccessChangesOnly(w: World, q: Request, answers: Answers)
    requires FreshId(w, answers) && Reset(w, q, answers).1.Some?
    ensures
      var (w', replacement) := Reset(w, q, answers);
      var newId := replacement.value;
      && w'.steps == w.steps && w'.advancing == w.advancing
      && w'.flows.Keys == w.flows.Keys && q.flowId in w.flows
      && (forall f :: f in w.flows && f != q.flowId ==> w'.flows[f] == w.flows[f])
      && newId !in w.agents && newId != q.agentId
      && OpenAgents(w') == OpenAgents(w) + {newId}
      && (forall a :: a in w.agents ==> a in w'.agents && w'.agents[a] == w.agents[a])
      && var before, after := w.flows[q.flowId], w'.flows[q.flowId];
      && after.status == FlowRunning && after.errorType == None && after.finishedAt == None
      && after.phase == "coordinator_agent"
      && w'.agents[newId] == Agent(before.scope, "CoordinatorAgent", Idle)
      && BoundTo(after.bindings, newId)
      && (forall r :: r != ROLE ==> (r in after.bindings <==> r in before.bindings))
      && (forall r :: r != ROLE && r in before.bindings ==> after.bindings[r] == before.bindings[r])
      && before == after.(status := before.status, errorType := before.errorType, finishedAt := before.finishedAt,
                          phase := before.phase, bindings := before.bindings)
  {
  }

  /** The new agent was created, the edit failed, and closing the agent failed too. */
  predicate Leaks(w: World, q: Request, answers: Answers) {
    && answers.held && Quiescent(w) && AtBoundary(w, q) && answers.contextBuilt && answers.created.Some?
    && !(answers.undisturbed && answers.committed) && !answers.closed
  }

  /**
   * Every failure leaves the flows and steps as they were, and no agent open that was not open before, exactly unless
   * the edit and the closing of the new agent both failed.
   */
  lemma FailureLeavesNothing(w: World, q: Request, answers: Answers)
    requires FreshId(w, answers) && Reset(w, q, answers).1.None?
    ensures
      var w' := Reset(w, q, answers).0;
      && w'.flows == w.flows && w'.steps == w.steps && w'.advancing == w.advancing
      && (OpenAgents(w') == OpenAgents(w) <==> !Leaks(w, q, answers))
      && (Leaks(w, q, answers) ==> OpenAgents(w') == OpenAgents(w) + {answers.created.value})
      && (forall a :: a in w.agents ==> a in w'.agents && w'.agents[a] == w.agents[a])
      && forall a :: a in w'.agents && a !in w.agents ==>
           && answers.created == Some(a) && q.flowId in w.flows
           && w'.agents[a] ==
              Agent(w.flows[q.flowId].scope, "CoordinatorAgent", if answers.closed then Closed else Idle)
  {
    var w' := Reset(w, q, answers).0;
    if Leaks(w, q, answers) {
      assert answers.created.value in OpenAgents(w') && answers.created.value !in OpenAgents(w);
      assert OpenAgents(w') == OpenAgents(w) + {answers.created.value};
    } else {
      assert OpenAgents(w') == OpenAgents(w);
    }
  }

  /** A failed attempt costs nothing: the next one, with every service answering, succeeds as it would have before. */
  lemma RetryAfterFailure(w: World, q: Request, answers: Answers, next: Answers)
    requires FreshId(w, answers) && Reset(w, q, answers).1.None?
    requires FreshId(Reset(w, q, answers).0, next)
    ensures Reset(Reset(w, q, answers).0, q, next).1.Some? <==> Accepted(w, q, next)
  {
  }

  // ----- any number of attempts -----

  /** An attempt, or anything else that happens to the world in between. */
  datatype Event = Attempt(answers: Answers) | Elsewhere(world: World)

  function Next(w: World, q: Request, e: Event): World {
    match e
    case Attempt(answers) => Reset(w, q, answers).0
    case Elsewhere(world) => world
  }

  function Run(w: World, q: Request, events: seq<Event>): World {
    if events == [] then w else Next(Run(w, q, events[..|events| - 1]), q, events[|events| - 1])
  }

  predicate Succeeds(w: World, q: Request, e: Event) {
    e.Attempt? && Reset(w, q, e.answers).1.Some?
  }

  function Successes(w: World, q: Request, events: seq<Event>): nat {
    if events == [] then 0
    else
      var init := events[..|events| - 1];
      Successes(w, q, init) + if Succeeds(Run(w, q, init), q, events[|events| - 1]) then 1 else 0
  }

  /** The flow is bound to an agent other than the one named. */
  predicate MovedOn(w: World, q: Request) {
    q.flowId in w.flows && !BoundTo(w.flows[q.flowId].bindings, q.agentId)
  }

  /** What other activity must not do: bind the flow to the named agent again once it was bound to another one. */
  predicate Allowed(w: World, q: Request, e: Event) {
    match e
    case Attempt(answers) => FreshId(w, answers)
    case Elsewhere(world) => MovedOn(w, q) ==> MovedOn(world, q)
  }

  predicate RunAllowed(w: World, q: Request, events: seq<Event>) {
    events == [] ||
    (RunAllowed(w, q, events[..|events| - 1]) && Allowed(Run(w, q, events[..|events| - 1]), q, events[|events| - 1]))
  }

  lemma SuccessMovesOn(w: World, q: Request, answers: Answers)
    requires FreshId(w, answers) && Reset(w, q, answers).1.Some?
    ensures !MovedOn(w, q) && MovedOn(Reset(w, q, answers).0, q)
  {
  }

  /** Other activity took the flow back: it is no longer bound to another agent. */
  predicate TakesBack(w: World, q: Request, e: Event) {
    e.Elsewhere? && MovedOn(w, q) && !MovedOn(e.world, q)
  }

  function TakenBack(w: World, q: Request, events: seq<Event>): nat {
    if events == [] then 0
    else
      var init := events[..|events| - 1];
      TakenBack(w, q, init) + if TakesBack(Run(w, q, init), q, events[|events| - 1]) then 1 else 0
  }

  predicate FreshIds(w: World, q: Request, events: seq<Event>) {
    events == [] ||
    var init, last := events[..|events| - 1], events[|events| - 1];
    FreshIds(w, q, init) && (last.Attempt? ==> FreshId(Run(w, q, init), last.answers))
  }

  /**
   * Over any sequence of attempts naming the same flow, step and agent, whatever happens in between: there is at most
   * one success more than times the flow was taken back.
   */
  lemma {:induction false} SuccessesBounded(w: World, q: Request, events: seq<Event>)
    requires FreshIds(w, q, events)
    ensures Successes(w, q, events) <= TakenBack(w, q, events) + if MovedOn(Run(w, q, events), q) then 1 else 0
  {
    if events != [] {
      var init, last := events[..|events| - 1], events[|events| - 1];
      SuccessesBounded(w, q, init);
      var before := Run(w, q, init);
      if last.Attempt? {
        if Succeeds(before, q, last) {
          SuccessMovesOn(before, q, last.answers);
        } else {
          FailureLeavesNothing(before, q, last.answers);
        }
      }
    }
  }

  lemma {:induction false} AllowedNeverTakesBack(w: World, q: Request, events: seq<Event>)
    requires RunAllowed(w, q, events)
    ensures FreshIds(w, q, events) && TakenBack(w, q, events) == 0
  {
    if events != [] {
      AllowedNeverTakesBack(w, q, events[..|events| - 1]);
    }
  }

  /** So if nothing binds the flow to the old agent again, at most one attempt succeeds. */
  lemma AtMostOneSuccess(w: World, q: Request, events: seq<Event>)
    requires RunAllowed(w, q, events)
    ensures Successes(w, q, events) <= 1
    ensures Successes(w, q, events) == 1 ==> MovedOn(Run(w, q, events), q)
  {
    AllowedNeverTakesBack(w, q, events);
    SuccessesBounded(w, q, events);
  }

  /** n attempts, the world put back before each. */
  function Restoring(w: World, answers: Answers, n: nat): seq<Event> {
    if n == 0 then [] else Restoring(w, answers, n - 1) + [Elsewhere(w), Attempt(answers)]
  }

  /** No smaller bound holds: for every n, n attempts can succeed with the flow taken back n - 1 times. */
  lemma {:induction false} BoundIsReached(w: World, q: Request, answers: Answers, n: nat)
    requires FreshId(w, answers) && Accepted(w, q, answers)
    ensures FreshIds(w, q, Restoring(w, answers, n))
    ensures Successes(w, q, Restoring(w, answers, n)) == n
    ensures n > 0 ==> TakenBack(w, q, Restoring(w, answers, n)) == n - 1
    ensures n > 0 ==> MovedOn(Run(w, q, Restoring(w, answers, n)), q)
  {
    SuccessMovesOn(w, q, answers);
    if n > 0 {
      BoundIsReached(w, q, answers, n - 1);
      var past := Restoring(w, answers, n - 1);
      OneMoreRestored(w, q, answers, past);
    }
  }

  lemma OneMoreRestored(w: World, q: Request, answers: Answers, past: seq<Event>)
    requires FreshId(w, answers) && Accepted(w, q, answers) && !MovedOn(w, q)
    requires FreshIds(w, q, past)
    ensures
      var more := past + [Elsewhere(w), Attempt(answers)];
      && FreshIds(w, q, more)
      && Run(w, q, more) == Reset(w, q, answers).0
      && Successes(w, q, more) == Successes(w, q, past) + 1
      && TakenBack(w, q, more) == TakenBack(w, q, past) + if MovedOn(Run(w, q, past), q) then 1 else 0
  {
    var back := past + [Elsewhere(w)];
    var more := back + [Attempt(answers)];
    assert more == past + [Elsewhere(w), Attempt(answers)];
    assert back[..|past|] == past && more[..|back|] == back;
    assert Run(w, q, back) == w;
    assert FreshIds(w, q, back) && Successes(w, q, back) == Successes(w, q, past);
    assert TakenBack(w, q, back) == TakenBack(w, q, past) + if MovedOn(Run(w, q, past), q) then 1 else 0;
  }

  /** The condition on other activity is needed: putting the world back, as a restored snapshot does, allows another. */
  lemma RestoringAllowsAnother(w: World, q: Request, answers: Answers)
    requires FreshId(w, answers) && Accepted(w, q, answers)
    ensures Successes(w, q, [Attempt(answers), Elsewhere(w), Attempt(answers)]) == 2
    ensures !RunAllowed(w, q, [Attempt(answers), Elsewhere(w), Attempt(answers)])
  {
    var e := Attempt(answers);
    var two := [e, Elsewhere(w)];
    assert [e][..0] == [] && two[..1] == [e] && (two + [e])[..2] == two;
    assert two + [e] == [e, Elsewhere(w), e];
    SuccessMovesOn(w, q, answers);
    assert Run(w, q, [e]) == Reset(w, q, answers).0;
    assert Successes(w, q, [e]) == 1;
    assert Run(w, q, two) == w && Successes(w, q, two) == 1;
    assert !RunAllowed(w, q, two);
  }
}
