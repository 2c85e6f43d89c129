/** The flow records a reader of the printed tree gets back, told by the names of the fields. */
module FlowViews {
  import opened Collections
  import opened Ordering
  import opened Filtering
  import opened FlowForest
  import opened FlowForestLaws

  // ----- what the views hold -----

  function TextAt(v: Json, key: string): string {
    if !v.Dict? then ""
    else match Lookup(v.fields, key) case Some(Text(s)) => s case _ => ""
  }

  function OptionalAt(v: Json, key: string): Option<string> {
    if !v.Dict? then None
    else match Lookup(v.fields, key) case Some(Text(s)) => Some(s) case _ => None
  }

  function ItemsAt(v: Json, key: string): seq<Json> {
    if !v.Dict? then []
    else match Lookup(v.fields, key) case Some(List(items)) => items case _ => []
  }

  function ReadTexts(items: seq<Json>): seq<string> {
    seq(|items|, i requires 0 <= i < |items| => if items[i].Text? then items[i].text else "")
  }

  /** A step record read back from its view by the names of its fields. */
  function ReadStep(v: Json): StepRecord {
    StepRecord(TextAt(v, "step_id"), TextAt(v, "scope_id"), TextAt(v, "step_type"), TextAt(v, "status"),
               OptionalAt(v, "agent_type"), ReadTexts(ItemsAt(v, "available_recovery_actions")))
  }

  function ReadSteps(items: seq<Json>): seq<StepRecord> {
    seq(|items|, i requires 0 <= i < |items| => ReadStep(items[i]))
  }

  /** A flow record read back from its view by the names of its fields. */
  function ReadFlow(v: Json): FlowRecord {
    FlowRecord(TextAt(v, "flow_id"), TextAt(v, "flow_type"), TextAt(v, "scope_id"), TextAt(v, "status"),
               OptionalAt(v, "parent_flow_id"), TextAt(v, "created_at"), ReadSteps(ItemsAt(v, "steps")))
  }

  ghost predicate FirstWithKey(fields: seq<Field>, i: nat) {
    i < |fields| && forall j :: 0 <= j < i ==> fields[j].key != fields[i].key
  }

  lemma {:induction false} LookupAt(fields: seq<Field>, i: nat)
    requires FirstWithKey(fields, i)
    ensures Lookup(fields, fields[i].key) == Some(fields[i].value)
  {
    if i > 0 {
      assert FirstWithKey(fields[1..], i - 1);
      LookupAt(fields[1..], i - 1);
    }
  }

  lemma {:induction false} TextsBack(ss: seq<string>)
    ensures ReadTexts(Texts(ss)) == ss
  {
    if ss != [] {
      TextsBack(ss[1..]);
      assert Texts(ss)[1..] == Texts(ss[1..]);
      assert ReadTexts(Texts(ss)) == [ss[0]] + ReadTexts(Texts(ss[1..]));
    }
  }

  lemma FieldAt(fields: seq<Field>, i: nat, key: string, value: Json)
    requires FirstWithKey(fields, i) && fields[i] == Field(key, value)
    ensures Lookup(fields, key) == Some(value)
  {
    LookupAt(fields, i);
  }

  lemma StepNames(f: FlowRecord, s: StepRecord)
    ensures var v := StepView(f, s);
      && TextAt(v, "step_id") == s.stepId && TextAt(v, "flow_id") == f.flowId && TextAt(v, "scope_id") == s.scopeId
  {
    var fields := StepView(f, s).fields;
    FieldAt(fields, 0, "step_id", Text(s.stepId));
    FieldAt(fields, 1, "flow_id", Text(f.flowId));
    FieldAt(fields, 2, "scope_id", Text(s.scopeId));
  }

  lemma StepState(f: FlowRecord, s: StepRecord)
    ensures var v := StepView(f, s);
      && TextAt(v, "step_type") == s.stepType && TextAt(v, "status") == s.status
      && OptionalAt(v, "agent_type") == s.agentType && ItemsAt(v, "available_recovery_actions") == Texts(s.actions)
  {
    var fields := StepView(f, s).fields;
    FieldAt(fields, 3, "step_type", Text(s.stepType));
    FieldAt(fields, 4, "status", Text(s.status));
    FieldAt(fields, 5, "agent_type", Optional(s.agentType));
    FieldAt(fields, 6, "available_recovery_actions", List(Texts(s.actions)));
  }

  lemma StepBack(f: FlowRecord, s: StepRecord)
    ensures ReadStep(StepView(f, s)) == s
  {
    TextsBack(s.actions);
    StepNames(f, s);
    StepState(f, s);
  }

  lemma {:induction false} StepsBack(f: FlowRecord, steps: seq<StepRecord>)
    ensures ReadSteps(StepViews(f, steps)) == steps
    decreases |steps|
  {
    if steps != [] {
      StepBack(f, steps[0]);
      StepsBack(f, steps[1..]);
      assert StepViews(f, steps)[1..] == StepViews(f, steps[1..]);
      assert ReadSteps(StepViews(f, steps)) == [steps[0]] + ReadSteps(StepViews(f, steps[1..]));
    }
  }

  lemma FlowNames(f: FlowRecord)
    ensures var v := FlowView(f);
      && TextAt(v, "flow_id") == f.flowId && TextAt(v, "flow_type") == f.flowType && TextAt(v, "scope_id") == f.scopeId
  {
    var fields := FlowView(f).fields;
    FieldAt(fields, 0, "flow_id", Text(f.flowId));
    FieldAt(fields, 1, "flow_type", Text(f.flowType));
    FieldAt(fields, 2, "scope_id", Text(f.scopeId));
  }

  lemma FlowState(f: FlowRecord)
    ensures var v := FlowView(f);
      && TextAt(v, "status") == f.status && OptionalAt(v, "parent_flow_id") == f.parentFlowId
      && TextAt(v, "created_at") == f.createdAt && ItemsAt(v, "steps") == StepViews(f, f.steps)
  {
    var fields := FlowView(f).fields;
    FieldAt(fields, 3, "status", Text(f.status));
    FieldAt(fields, 4, "parent_flow_id", Optional(f.parentFlowId));
    FieldAt(fields, 5, "created_at", Text(f.createdAt));
    FieldAt(fields, 6, "steps", List(StepViews(f, f.steps)));
  }

  /** Reading a view by the names of its fields gives the record back, steps and all. */
  lemma ViewRoundTrip(f: FlowRecord)
    ensures ReadFlow(FlowView(f)) == f
  {
    StepsBack(f, f.steps);
    FlowNames(f);
    FlowState(f);
  }

  function ReadFlows(records: seq<Json>): seq<FlowRecord> {
    seq(|records|, i requires 0 <= i < |records| => ReadFlow(records[i]))
  }

  lemma {:induction false} ViewsBack(fs: seq<FlowRecord>)
    ensures ReadFlows(Views(fs)) == Filter(f => Named(f), fs)
  {
    if fs != [] {
      ViewsBack(fs[1..]);
      ViewRoundTrip(fs[0]);
      if Named(fs[0]) {
        assert Entries(fs)[1..] == Entries(fs[1..]);
      } else {
        assert Entries(fs) == Entries(fs[1..]);
      }
      assert Views(fs) == (if Named(fs[0]) then [FlowView(fs[0])] else []) + Views(fs[1..]);
      assert ReadFlows(Views(fs)) == (if Named(fs[0]) then [fs[0]] else []) + ReadFlows(Views(fs[1..]));
    }
  }

  /** The records read from the printed tree are the shown flows that have an id and a type, in the order shown. */
  lemma RecordsAreTheShownFlows(flows: seq<FlowRecord>)
    requires DistinctIds(flows)
    ensures ReadFlows(Values(Visit([], Tree(flows)))) == Filter(f => Named(f), Shown(flows))
  {
    FlatteningReturnsTheShownFlows(flows);
    ViewsBack(Shown(flows));
  }

  /** A flow has a parent in the tree exactly if a listed flow has the id, not empty, that it names. */
  lemma ParentIff(flows: seq<FlowRecord>, f: FlowRecord, id: string)
    ensures IsChildOf(flows, f, id) <==>
            f.parentFlowId == Some(id) && id != "" && exists g :: g in flows && g.flowId == id
    ensures HasListedParent(flows, f) <==>
            exists g :: g in flows && f.parentFlowId == Some(g.flowId) && g.flowId != ""
  {
    if HasListedParent(flows, f) {
      var g :| g in flows && g.flowId == f.parentFlowId.value;
      assert f.parentFlowId == Some(g.flowId);
    }
  }

  /** A node holds the view of its flow and the nodes of its children. */
  lemma NodeHolds(flows: seq<FlowRecord>, f: FlowRecord, path: seq<FlowRecord>)
    requires DistinctIds(flows) && Ancestry(flows, path, f)
    ensures var node := Node(flows, f, path);
      && Lookup(node.fields, "flow") == Some(FlowView(f))
      && |ItemsAt(node, "children")| == |Children(flows, f.flowId)|
  {
    AncestryBound(flows, path, f);
    ChildAncestry(flows, path, f);
    var node := Node(flows, f, path);
    var children := ByCreation(Children(flows, f.flowId));
    NodesLength(flows, children, path + [f]);
    SortPermutes((a, b) => CreatedBefore(a, b), Children(flows, f.flowId));
    assert |multiset(children)| == |multiset(Children(flows, f.flowId))|;
    assert FirstWithKey(node.fields, 0) && FirstWithKey(node.fields, 1);
    LookupAt(node.fields, 0);
    LookupAt(node.fields, 1);
    assert node.fields[1].key == "children";
  }

  lemma {:induction false} NodesLength(flows: seq<FlowRecord>, siblings: seq<FlowRecord>, path: seq<FlowRecord>)
    requires DistinctIds(flows) && forall f :: f in siblings ==> Ancestry(flows, path, f)
    ensures |Nodes(flows, siblings, path)| == |siblings|
    decreases |siblings|
  {
    if siblings != [] {
      NodesLength(flows, siblings[1..], path);
    }
  }

  /** Assigning a key keeps the place of the first field with that key, or adds a field at the end. */
  lemma {:induction false} PutReplacesInPlace(found: seq<Field>, key: string, value: Json, i: nat)
    requires i <= |found| && (forall j :: 0 <= j < i ==> found[j].key != key)
    requires i < |found| ==> found[i].key == key
    ensures Put(found, key, value) ==
            if i < |found| then found[i := Field(key, value)] else found + [Field(key, value)]
  {
    if found != [] && i > 0 {
      PutReplacesInPlace(found[1..], key, value, i - 1);
    }
  }
}
