/** `_consumed_failed_children` of `app/provider_switch.py`: which failed flows a finished branch has consumed. */
module ConsumedFailures {
  import opened Collections
  import opened Ordering

  datatype FlowStatus = Completed | Failed | OtherStatus(name: string)

  datatype FlowRecord = FlowRecord(
    flowId: string, flowType: string, status: FlowStatus, parentFlowId: Option<string>,
    parentDispatchStepId: Option<string>, stepIds: seq<string>, waitingDispatchStepId: Option<string>)

  /** The outcome attribute of a result: there is none, or it is None, or a text. */
  datatype Outcome = Missing | Null | Text(text: string)

  datatype StepRecord = StepRecord(
    stepId: string, flowId: string, stepType: string, completed: bool, submitted: bool,
    callbackDispatchStepId: Option<string>, outcome: Outcome)

  type Flows = map<string, FlowRecord>
  type Steps = map<string, StepRecord>

  /** Records indexed by their own id; of several with one id the last is kept. */
  function FlowsById(list: seq<FlowRecord>): (flows: Flows)
    ensures forall id :: id in flows ==> flows[id].flowId == id && flows[id] in list
    ensures forall f :: f in list ==> f.flowId in flows
  {
    if list == [] then map[] else FlowsById(list[..|list| - 1])[list[|list| - 1].flowId := list[|list| - 1]]
  }

  function StepsById(list: seq<StepRecord>): (steps: Steps)
    ensures forall id :: id in steps ==> steps[id].stepId == id && steps[id] in list
    ensures forall s :: s in list ==> s.stepId in steps
  {
    if list == [] then map[] else StepsById(list[..|list| - 1])[list[|list| - 1].stepId := list[|list| - 1]]
  }

  /** The Coordinator finished an agent step called back from exactly this dispatch. */
  predicate CallbackFinished(steps: Steps, parent: FlowRecord, dispatch: StepRecord) {
    exists id :: id in steps
      && steps[id].flowId == parent.flowId && id in parent.stepIds
      && steps[id].completed && steps[id].submitted
      && steps[id].stepType == "coordinator_agent_step"
      && steps[id].callbackDispatchStepId == Some(dispatch.stepId)
      && steps[id].outcome != Missing && steps[id].outcome != Text("incomplete")
  }

  predicate DirectlyConsumed(flows: Flows, steps: Steps, id: string) {
    && id in flows && flows[id].status.Failed?
    && flows[id].parentFlowId.Some? && flows[id].parentFlowId.value in flows
    && flows[id].parentDispatchStepId.Some? && flows[id].parentDispatchStepId.value in steps
    && var parent, dispatch := flows[flows[id].parentFlowId.value], steps[flows[id].parentDispatchStepId.value];
    && parent.flowType == "native_repo_coordinator"
    && dispatch.flowId == parent.flowId && dispatch.completed
    && flows[id].parentDispatchStepId != parent.waitingDispatchStepId
    && CallbackFinished(steps, parent, dispatch)
  }

  /**
   * The step sid proves that the failure of the flow id was consumed: the Coordinator that dispatched the flow does not
   * wait for that dispatch any more, and was called back from it in this step, which is completed with a submission and
   * another outcome than an incomplete one.
   */
  predicate ProvesConsumption(flows: Flows, steps: Steps, id: string, sid: string) {
    && id in flows && sid in steps
    && var child, step := flows[id], steps[sid];
    && child.status == Failed && child.parentFlowId.Some? && child.parentDispatchStepId.Some?
    && child.parentFlowId.value in flows && child.parentDispatchStepId.value in steps
    && var parent, dispatch := flows[child.parentFlowId.value], steps[child.parentDispatchStepId.value];
    && parent.flowType == "native_repo_coordinator" && parent.waitingDispatchStepId != child.parentDispatchStepId
    && dispatch.flowId == parent.flowId && dispatch.completed
    && step.flowId == parent.flowId && sid in parent.stepIds && step.stepType == "coordinator_agent_step"
    && step.completed && step.submitted && step.callbackDispatchStepId == Some(dispatch.stepId)
    && (step.outcome == Null || (step.outcome.Text? && step.outcome.text != "incomplete"))
  }

  /** A failure is directly consumed exactly if some step proves it. */
  lemma DirectlyConsumedIff(flows: Flows, steps: Steps, id: string)
    ensures DirectlyConsumed(flows, steps, id) <==> exists sid :: ProvesConsumption(flows, steps, id, sid)
  {
    if DirectlyConsumed(flows, steps, id) {
      var parent, dispatch := flows[flows[id].parentFlowId.value], steps[flows[id].parentDispatchStepId.value];
      var sid :| sid in steps && steps[sid].flowId == parent.flowId && sid in parent.stepIds
        && steps[sid].completed && steps[sid].submitted && steps[sid].stepType == "coordinator_agent_step"
        && steps[sid].callbackDispatchStepId == Some(dispatch.stepId)
        && steps[sid].outcome != Missing && steps[sid].outcome != Text("incomplete");
      assert ProvesConsumption(flows, steps, id, sid);
    }
    if exists sid :: ProvesConsumption(flows, steps, id, sid) {
      var sid :| ProvesConsumption(flows, steps, id, sid);
      assert CallbackFinished(steps, flows[flows[id].parentFlowId.value], steps[flows[id].parentDispatchStepId.value]);
    }
  }

  predicate ParentIn(flows: Flows, id: string, ids: set<string>)
    requires id in flows
  {
    flows[id].parentFlowId.Some? && flows[id].parentFlowId.value in ids
  }

  function CompletedIds(flows: Flows): set<string> {
    set id | id in flows && flows[id].status.Completed?
  }

  /** The chain of failed ancestors, starting at a flow itself, that reaches a consumed flow or a completed parent. */
  ghost predicate ConsumedChain(flows: Flows, steps: Steps, chain: seq<string>) {
    && chain != []
    && (forall i :: 0 <= i < |chain| ==> chain[i] in flows && flows[chain[i]].status.Failed?)
    && (forall i :: 0 <= i < |chain| - 1 ==> flows[chain[i]].parentFlowId == Some(chain[i + 1]))
    && var last := chain[|chain| - 1];
    DirectlyConsumed(flows, steps, last) || ParentIn(flows, last, CompletedIds(flows))
  }

  ghost predicate Consumed(flows: Flows, steps: Steps, id: string) {
    exists chain :: ConsumedChain(flows, steps, chain) && chain[0] == id
  }

  /** A set of failed flows that contains every reason to be consumed. */
  ghost predicate Closed(flows: Flows, steps: Steps, ids: set<string>) {
    forall id :: id in flows && flows[id].status.Failed?
      && (DirectlyConsumed(flows, steps, id) || ParentIn(flows, id, CompletedIds(flows)) || ParentIn(flows, id, ids))
      ==> id in ids
  }

  lemma ConsumedStart(flows: Flows, steps: Steps, id: string)
    requires id in flows && flows[id].status.Failed?
    requires DirectlyConsumed(flows, steps, id) || ParentIn(flows, id, CompletedIds(flows))
    ensures Consumed(flows, steps, id)
  {
    assert ConsumedChain(flows, steps, [id]);
  }

  lemma ConsumedStep(flows: Flows, steps: Steps, id: string)
    requires id in flows && flows[id].status.Failed? && flows[id].parentFlowId.Some?
    requires Consumed(flows, steps, flows[id].parentFlowId.value)
    ensures Consumed(flows, steps, id)
  {
    var chain :| ConsumedChain(flows, steps, chain) && chain[0] == flows[id].parentFlowId.value;
    var longer := [id] + chain;
    forall i | 0 <= i < |longer| - 1 ensures flows[longer[i]].parentFlowId == Some(longer[i + 1]) {
      if i > 0 {
        assert longer[i] == chain[i - 1] && longer[i + 1] == chain[i - 1 + 1];
      }
    }
    assert ConsumedChain(flows, steps, longer);
  }

  /** Every chain lies inside every closed set: the consumed flows are the least one. */
  lemma {:induction false} ChainInsideClosed(flows: Flows, steps: Steps, chain: seq<string>, ids: set<string>)
    requires ConsumedChain(flows, steps, chain) && Closed(flows, steps, ids)
    ensures chain[0] in ids
    decreases |chain|
  {
    if |chain| > 1 {
      TailIsChain(flows, steps, chain);
      ChainInsideClosed(flows, steps, chain[1..], ids);
    }
  }

  /** The consumed failures form a closed set, and are contained in every closed set. */
  lemma ConsumedIsLeastClosed(flows: Flows, steps: Steps, ids: set<string>)
    requires ids == set id | id in flows && Consumed(flows, steps, id)
    ensures Closed(flows, steps, ids)
    ensures forall other :: Closed(flows, steps, other) ==> ids <= other
  {
    forall id | id in flows && flows[id].status.Failed?
      && (DirectlyConsumed(flows, steps, id) || ParentIn(flows, id, CompletedIds(flows)) || ParentIn(flows, id, ids))
      ensures id in ids
    {
      if ParentIn(flows, id, ids) {
        ConsumedStep(flows, steps, id);
      } else {
        ConsumedStart(flows, steps, id);
      }
    }
    forall other, id | Closed(flows, steps, other) && id in ids ensures id in other {
      var chain :| ConsumedChain(flows, steps, chain) && chain[0] == id;
      ChainInsideClosed(flows, steps, chain, other);
    }
  }

  /** The completed flows and the directly consumed ones. */
  method StartHistory(flows: Flows, steps: Steps) returns (historical: set<string>)
    ensures forall id :: id in historical <==>
              id in flows && (flows[id].status.Completed? || DirectlyConsumed(flows, steps, id))
  {
    historical := CompletedIds(flows);
    var children := flows.Keys;
    while children != {}
      invariant children <= flows.Keys
      invariant forall id :: id in historical <==>
        id in flows && (flows[id].status.Completed? || (id !in children && DirectlyConsumed(flows, steps, id)))
      decreases |children|
    {
      var child :| child in children;
      children := children - {child};
      if DirectlyConsumed(flows, steps, child) {
        historical := historical + {child};
      }
    }
  }

  ghost predicate Historical(flows: Flows, steps: Steps, ids: set<string>) {
    && CompletedIds(flows) <= ids <= flows.Keys
    && (forall id :: DirectlyConsumed(flows, steps, id) ==> id in ids)
    && (forall id :: id in ids ==>
          flows[id].status.Completed? || (flows[id].status.Failed? && Consumed(flows, steps, id)))
  }

  lemma GrownIsConsumed(flows: Flows, steps: Steps, previous: set<string>, id: string)
    requires Historical(flows, steps, previous)
    requires id in flows && flows[id].status.Failed? && ParentIn(flows, id, previous)
    ensures Consumed(flows, steps, id)
  {
    if ParentIn(flows, id, CompletedIds(flows)) {
      ConsumedStart(flows, steps, id);
    } else {
      ConsumedStep(flows, steps, id);
    }
  }

  /** Failed descendants are added until nothing changes. */
  method CloseHistory(flows: Flows, steps: Steps, start: set<string>) returns (historical: set<string>)
    requires Historical(flows, steps, start)
    ensures Historical(flows, steps, historical)
    ensures forall id :: id in flows && flows[id].status.Failed? && ParentIn(flows, id, historical) ==> id in historical
  {
    historical := start;
    while true
      invariant Historical(flows, steps, historical)
      decreases |flows.Keys - historical|
    {
      var previous := historical;
      var grown := set id | id in flows && flows[id].status.Failed? && ParentIn(flows, id, previous);
      forall id | id in grown ensures Consumed(flows, steps, id) {
        GrownIsConsumed(flows, steps, previous, id);
      }
      historical := historical + grown;
      if historical == previous {
        break;
      }
      Shrinks(flows.Keys, previous, historical);
    }
  }

  lemma FailedHistoryIsExact(flows: Flows, steps: Steps, historical: set<string>, failed: set<string>)
    requires Historical(flows, steps, historical)
    requires forall id ::
               id in flows && flows[id].status.Failed? && ParentIn(flows, id, historical) ==> id in historical
    requires failed == set id | id in historical && flows[id].status.Failed?
    ensures forall id :: id in failed <==> Consumed(flows, steps, id)
  {
    assert Closed(flows, steps, failed) by {
      forall id | id in flows && flows[id].status.Failed?
        && (DirectlyConsumed(flows, steps, id) || ParentIn(flows, id, CompletedIds(flows))
            || ParentIn(flows, id, failed))
        ensures id in failed
      {
        assert DirectlyConsumed(flows, steps, id) || ParentIn(flows, id, historical);
      }
    }
    forall id ensures id in failed <==> Consumed(flows, steps, id) {
      if Consumed(flows, steps, id) {
        var chain :| ConsumedChain(flows, steps, chain) && chain[0] == id;
        ChainInsideClosed(flows, steps, chain, failed);
      }
    }
  }

  /** `_consumed_failed_children`: sorted, and exactly the consumed failures. */
  method ConsumedFailedChildren(flowList: seq<FlowRecord>, stepList: seq<StepRecord>) returns (ids: seq<string>)
    ensures forall i, j :: 0 <= i < j < |ids| ==> StringLt(ids[i], ids[j])
    ensures forall id :: id in ids <==> Consumed(FlowsById(flowList), StepsById(stepList), id)
  {
    var flows, steps := FlowsById(flowList), StepsById(stepList);
    var historical := StartHistory(flows, steps);
    forall id | id in historical && !flows[id].status.Completed? ensures Consumed(flows, steps, id) {
      ConsumedStart(flows, steps, id);
    }
    historical := CloseHistory(flows, steps, historical);
    var failed := set id | id in historical && flows[id].status.Failed?;
    FailedHistoryIsExact(flows, steps, historical, failed);
    ids := SortedMembers(failed);
  }

  lemma Shrinks<T>(all: set<T>, a: set<T>, b: set<T>)
    requires a < b <= all
    ensures |all - b| < |all - a|
  {
    var x :| x in b && x !in a;
    assert all - b <= (all - a) - {x};
    SubsetCardinality(all - b, (all - a) - {x});
  }

  lemma TailIsChain(flows: Flows, steps: Steps, chain: seq<string>)
    requires ConsumedChain(flows, steps, chain) && |chain| > 1
    ensures ConsumedChain(flows, steps, chain[1..]) && flows[chain[0]].parentFlowId == Some(chain[1])
  {
  }

  /** One level at a time: a failed flow is consumed directly, by a completed parent, or through a consumed parent. */
  lemma ConsumedIff(flows: Flows, steps: Steps, id: string)
    ensures Consumed(flows, steps, id) <==>
      id in flows && flows[id].status.Failed?
      && (DirectlyConsumed(flows, steps, id) || ParentIn(flows, id, CompletedIds(flows))
          || (flows[id].parentFlowId.Some? && Consumed(flows, steps, flows[id].parentFlowId.value)))
  {
    if Consumed(flows, steps, id) {
      var chain :| ConsumedChain(flows, steps, chain) && chain[0] == id;
      if |chain| > 1 {
        TailIsChain(flows, steps, chain);
        assert chain[1..][0] == chain[1];
      }
    } else if id in flows && flows[id].status.Failed? {
      if DirectlyConsumed(flows, steps, id) || ParentIn(flows, id, CompletedIds(flows)) {
        ConsumedStart(flows, steps, id);
      } else if flows[id].parentFlowId.Some? && Consumed(flows, steps, flows[id].parentFlowId.value) {
        ConsumedStep(flows, steps, id);
      }
    }
  }

  /** A failed child of the dispatch a non-terminal Coordinator still waits for is never among them. */
  lemma AwaitedChildIsNotConsumed(flows: Flows, steps: Steps, id: string)
    requires id in flows && flows[id].status.Failed?
    requires flows[id].parentFlowId.Some? && flows[id].parentFlowId.value in flows
    requires var parent := flows[flows[id].parentFlowId.value];
      && parent.status.OtherStatus? && flows[id].parentDispatchStepId == parent.waitingDispatchStepId
    ensures !Consumed(flows, steps, id)
  {
    ConsumedIff(flows, steps, id);
    ConsumedIff(flows, steps, flows[id].parentFlowId.value);
  }
}
