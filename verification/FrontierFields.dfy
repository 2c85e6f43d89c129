/** What a snapshot shows, in its own fields: the words in which the answers of the two deciders are told. */
module FrontierFields {
  import opened Ordering
  import opened Filtering
  import opened Frontier

  predicate Idle(s: Snapshot) {
    s.runtime.paused && s.runtime.runningStepIds == [] && s.runtime.activeFlowAdvances == []
  }

  predicate NoActiveLease(s: Snapshot) {
    s.lease == None || s.lease.value.status != LeaseActive
  }

  predicate Given(x: Option<string>) {
    x != None && x != Some("")
  }

  /** The first step that carries the flow's current step id has neither failed nor been suspended. */
  ghost predicate CurrentStepHealthy(f: Flow) {
    forall k :: 0 <= k < |f.steps| && FirstWithId(f.steps, f.currentStepId, k) ==>
                  f.steps[k].status !in [StepFailed, StepSuspended]
  }

  ghost predicate FirstWithId(steps: seq<Step>, id: Option<string>, k: nat)
    requires k < |steps|
  {
    Some(steps[k].stepId) == id && forall m :: 0 <= m < k ==> Some(steps[m].stepId) != id
  }

  lemma {:induction false} CurrentStepIsFirst(steps: seq<Step>, id: Option<string>)
    ensures forall k :: 0 <= k < |steps| && FirstWithId(steps, id, k) ==> CurrentStep(steps, id) == Some(steps[k])
    ensures CurrentStep(steps, id).Some? ==>
              exists k :: 0 <= k < |steps| && FirstWithId(steps, id, k)
  {
    if steps != [] {
      if Some(steps[0].stepId) == id {
        assert FirstWithId(steps, id, 0);
      } else {
        CurrentStepIsFirst(steps[1..], id);
        forall k | 0 <= k < |steps| && FirstWithId(steps, id, k) ensures CurrentStep(steps, id) == Some(steps[k]) {
          assert FirstWithId(steps[1..], id, k - 1);
        }
        if CurrentStep(steps, id).Some? {
          var k :| 0 <= k < |steps[1..]| && FirstWithId(steps[1..], id, k);
          assert FirstWithId(steps, id, k + 1);
        }
      }
    }
  }

  lemma StuckIff(f: Flow)
    ensures CurrentStepStuck(f) <==> !CurrentStepHealthy(f)
  {
    CurrentStepIsFirst(f.steps, f.currentStepId);
  }
}
