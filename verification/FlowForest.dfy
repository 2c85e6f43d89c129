/**
 * The flow tree the Admin API prints (`list_flow_tree`) and the flow list the driver reads back (`flow_records`).
 * Parent pointers are arbitrary: they may dangle, point at the flow itself or form cycles.
 */
module FlowForest {
  import opened Collections
  import opened Ordering
  import opened Filtering

  datatype Json =
    | Null
    | Number(n: int)
    | Text(text: string)
    | List(items: seq<Json>)
    | Dict(fields: seq<Field>)

  datatype Field = Field(key: string, value: Json)

  datatype StepRecord = StepRecord(stepId: string, scopeId: string, stepType: string, status: string,
                                   agentType: Option<string>, actions: seq<string>)

  datatype FlowRecord = FlowRecord(
    flowId: string, flowType: string, scopeId: string, status: string, parentFlowId: Option<string>,
    createdAt: string, steps: seq<StepRecord>)

  ghost predicate DistinctIds(flows: seq<FlowRecord>) {
    forall i, j :: 0 <= i < j < |flows| ==> flows[i].flowId != flows[j].flowId
  }

  predicate Listed(flows: seq<FlowRecord>, id: string) {
    exists f :: f in flows && f.flowId == id
  }

  /** The flow names a parent, and the list has it. */
  predicate HasListedParent(flows: seq<FlowRecord>, f: FlowRecord) {
    f.parentFlowId.Some? && f.parentFlowId.value != "" && Listed(flows, f.parentFlowId.value)
  }

  predicate IsChildOf(flows: seq<FlowRecord>, f: FlowRecord, id: string) {
    HasListedParent(flows, f) && f.parentFlowId == Some(id)
  }

  /** Siblings are shown by creation time, then id. */
  predicate CreatedBefore(a: FlowRecord, b: FlowRecord) {
    StringLt(a.createdAt, b.createdAt) || (a.createdAt == b.createdAt && StringLe(a.flowId, b.flowId))
  }

  function ByCreation(flows: seq<FlowRecord>): seq<FlowRecord> {
    Sort((a, b) => CreatedBefore(a, b), flows)
  }

  function ChildrenAmong(flows: seq<FlowRecord>, part: seq<FlowRecord>, id: string): seq<FlowRecord> {
    Filter(f => IsChildOf(flows, f, id), part)
  }

  function RootsAmong(flows: seq<FlowRecord>, part: seq<FlowRecord>): seq<FlowRecord> {
    Filter(f => !HasListedParent(flows, f), part)
  }

  function Children(flows: seq<FlowRecord>, id: string): seq<FlowRecord> {
    ChildrenAmong(flows, flows, id)
  }

  function Roots(flows: seq<FlowRecord>): seq<FlowRecord> {
    RootsAmong(flows, flows)
  }

  /** The chain of parents from a root down to, but not including, the flow. */
  ghost predicate Ancestry(flows: seq<FlowRecord>, path: seq<FlowRecord>, f: FlowRecord)
    decreases |path|
  {
    && f in flows
    && if path == [] then !HasListedParent(flows, f)
       else IsChildOf(flows, f, path[|path| - 1].flowId) && Ancestry(flows, path[..|path| - 1], path[|path| - 1])
  }

  /** The parent chain of the flow leaves the list. */
  ghost predicate Rooted(flows: seq<FlowRecord>, f: FlowRecord) {
    exists path :: Ancestry(flows, path, f)
  }

  lemma SameId(flows: seq<FlowRecord>, f: FlowRecord, g: FlowRecord)
    requires DistinctIds(flows) && f in flows && g in flows && f.flowId == g.flowId
    ensures f == g
  {
  }

  /** A flow has at most one chain, so no chain repeats a flow. */
  lemma {:induction false} AncestryUnique(flows: seq<FlowRecord>, p: seq<FlowRecord>, q: seq<FlowRecord>, f: FlowRecord)
    requires DistinctIds(flows) && Ancestry(flows, p, f) && Ancestry(flows, q, f)
    ensures p == q
    decreases |p|
  {
    if p != [] && q != [] {
      var a, b := p[|p| - 1], q[|q| - 1];
      SameId(flows, a, b);
      AncestryUnique(flows, p[..|p| - 1], q[..|q| - 1], a);
      assert p == p[..|p| - 1] + [a] && q == q[..|q| - 1] + [b];
    }
  }

  lemma {:induction false} AncestryPrefix(flows: seq<FlowRecord>, path: seq<FlowRecord>, f: FlowRecord, i: nat)
    requires Ancestry(flows, path, f) && i < |path|
    ensures Ancestry(flows, path[..i], path[i])
    decreases |path|
  {
    if i < |path| - 1 {
      AncestryPrefix(flows, path[..|path| - 1], path[|path| - 1], i);
      assert path[..|path| - 1][..i] == path[..i];
    }
  }

  lemma AncestryDistinct(flows: seq<FlowRecord>, path: seq<FlowRecord>, f: FlowRecord)
    requires DistinctIds(flows) && Ancestry(flows, path, f)
    ensures Distinct(path + [f])
  {
    var all := path + [f];
    forall i, j | 0 <= i < j < |all| ensures all[i] != all[j] {
      AncestryPrefix(flows, path, f, i);
      if j < |path| {
        AncestryPrefix(flows, path, f, j);
      } else {
        assert path[..j] == path;
      }
      if all[i] == all[j] {
        AncestryUnique(flows, path[..i], path[..j], all[i]);
      }
    }
  }

  /** So a chain is never longer than the list: what bounds the recursion over the tree. */
  lemma AncestryBound(flows: seq<FlowRecord>, path: seq<FlowRecord>, f: FlowRecord)
    requires DistinctIds(flows) && Ancestry(flows, path, f)
    ensures |path| < |flows|
  {
    AncestryDistinct(flows, path, f);
    DistinctCardinality(path + [f]);
    forall x | x in path + [f] ensures x in flows {
      var i :| 0 <= i < |path + [f]| && (path + [f])[i] == x;
      if i < |path| {
        AncestryPrefix(flows, path, f, i);
      }
    }
    assert (set x | x in path + [f]) <= (set x | x in flows);
    DistinctCardinality(flows);
    SubsetCardinality((set x | x in path + [f]), (set x | x in flows));
  }

  lemma ChildAncestry(flows: seq<FlowRecord>, path: seq<FlowRecord>, f: FlowRecord)
    requires Ancestry(flows, path, f)
    ensures forall c :: c in ByCreation(Children(flows, f.flowId)) ==> Ancestry(flows, path + [f], c)
  {
    SortPermutes((a, b) => CreatedBefore(a, b), Children(flows, f.flowId));
    FilterMembers(c => IsChildOf(flows, c, f.flowId), flows);
    assert (path + [f])[..|path|] == path;
  }

  lemma RootAncestry(flows: seq<FlowRecord>)
    ensures forall f :: f in ByCreation(Roots(flows)) ==> Ancestry(flows, [], f)
  {
    SortPermutes((a, b) => CreatedBefore(a, b), Roots(flows));
    FilterMembers(f => !HasListedParent(flows, f), flows);
  }

  // ----- the printed tree -----

  function Optional(s: Option<string>): Json {
    if s.Some? then Text(s.value) else Null
  }

  /** A step view names its flow but has no flow type. */
  function StepView(f: FlowRecord, s: StepRecord): Json {
    Dict([Field("step_id", Text(s.stepId)), Field("flow_id", Text(f.flowId)), Field("scope_id", Text(s.scopeId)),
          Field("step_type", Text(s.stepType)), Field("status", Text(s.status)),
          Field("agent_type", Optional(s.agentType)),
          Field("available_recovery_actions", List(Texts(s.actions)))])
  }

  function Texts(ss: seq<string>): seq<Json> {
    if ss == [] then [] else [Text(ss[0])] + Texts(ss[1..])
  }

  function StepViews(f: FlowRecord, steps: seq<StepRecord>): seq<Json> {
    if steps == [] then [] else [StepView(f, steps[0])] + StepViews(f, steps[1..])
  }

  function FlowView(f: FlowRecord): Json {
    Dict([Field("flow_id", Text(f.flowId)), Field("flow_type", Text(f.flowType)), Field("scope_id", Text(f.scopeId)),
          Field("status", Text(f.status)), Field("parent_flow_id", Optional(f.parentFlowId)),
          Field("created_at", Text(f.createdAt)), Field("steps", List(StepViews(f, f.steps)))])
  }

  function Node(flows: seq<FlowRecord>, f: FlowRecord, ghost path: seq<FlowRecord>): Json
    requires DistinctIds(flows) && Ancestry(flows, path, f)
    decreases |flows| - |path|, 0, 0
  {
    AncestryBound(flows, path, f);
    ChildAncestry(flows, path, f);
    Dict([Field("flow", FlowView(f)),
          Field("children", List(Nodes(flows, ByCreation(Children(flows, f.flowId)), path + [f])))])
  }

  function Nodes(flows: seq<FlowRecord>, siblings: seq<FlowRecord>, ghost path: seq<FlowRecord>): seq<Json>
    requires DistinctIds(flows) && forall f :: f in siblings ==> Ancestry(flows, path, f)
    decreases |flows| - |path|, 1, |siblings|
  {
    if siblings == [] then [] else [Node(flows, siblings[0], path)] + Nodes(flows, siblings[1..], path)
  }

  function StepCount(flows: seq<FlowRecord>): nat {
    if flows == [] then 0 else |flows[0].steps| + StepCount(flows[1..])
  }

  function Tree(flows: seq<FlowRecord>): Json
    requires DistinctIds(flows)
  {
    RootAncestry(flows);
    var nodes := Nodes(flows, ByCreation(Roots(flows)), []);
    Dict([Field("total_flows", Number(|flows|)), Field("total_steps", Number(StepCount(flows))),
          Field("root_count", Number(|nodes|)), Field("roots", List(nodes))])
  }

  // ----- reading it back -----

  function Lookup(fields: seq<Field>, key: string): Option<Json> {
    if fields == [] then None else if fields[0].key == key then Some(fields[0].value) else Lookup(fields[1..], key)
  }

  predicate NonEmptyText(v: Option<Json>) {
    v.Some? && v.value.Text? && v.value.text != ""
  }

  predicate IsFlowRecord(v: Json) {
    v.Dict? && NonEmptyText(Lookup(v.fields, "flow_id")) && NonEmptyText(Lookup(v.fields, "flow_type"))
  }

  /** Assignment in an insertion-ordered dict. */
  function Put(found: seq<Field>, key: string, value: Json): seq<Field> {
    if found == [] then [Field(key, value)]
    else if found[0].key == key then [Field(key, value)] + found[1..]
    else [found[0]] + Put(found[1..], key, value)
  }

  function Visit(found: seq<Field>, v: Json): seq<Field>
    decreases v
  {
    match v
    case Dict(fields) =>
      VisitFields(if IsFlowRecord(v) then Put(found, Lookup(fields, "flow_id").value.text, v) else found, fields)
    case List(items) => VisitItems(found, items)
    case _ => found
  }

  function VisitFields(found: seq<Field>, fields: seq<Field>): seq<Field>
    decreases fields
  {
    if fields == [] then found else VisitFields(Visit(found, fields[0].value), fields[1..])
  }

  function VisitItems(found: seq<Field>, items: seq<Json>): seq<Field>
    decreases items
  {
    if items == [] then found else VisitItems(Visit(found, items[0]), items[1..])
  }

  function Values(found: seq<Field>): seq<Json> {
    if found == [] then [] else [found[0].value] + Values(found[1..])
  }

  /** `flow_records`: fills the dict `found` while walking the response. */
  class FlowFinder {
    var found: seq<Field>

    constructor ()
      ensures found == []
    {
      found := [];
    }

    method VisitValue(v: Json)
      modifies this
      ensures found == Visit(old(found), v)
      decreases v
    {
      match v
      case Dict(fields) =>
        if IsFlowRecord(v) {
          found := Put(found, Lookup(fields, "flow_id").value.text, v);
        }
        ghost var start := found;
        for i := 0 to |fields|
          invariant VisitFields(found, fields[i..]) == VisitFields(start, fields)
        {
          assert fields[i..][1..] == fields[i + 1..];
          VisitValue(fields[i].value);
        }
      case List(items) =>
        ghost var start := found;
        for i := 0 to |items|
          invariant VisitItems(found, items[i..]) == VisitItems(start, items)
        {
          assert items[i..][1..] == items[i + 1..];
          VisitValue(items[i]);
        }
      case _ =>
    }
  }

  method FlowRecords(tree: Json) returns (records: seq<Json>)
    ensures records == Values(Visit([], tree))
  {
    var finder := new FlowFinder();
    finder.VisitValue(tree);
    records := Values(finder.found);
  }

  lemma AmongExtends(flows: seq<FlowRecord>, part: seq<FlowRecord>, f: FlowRecord)
    ensures RootsAmong(flows, part + [f]) == RootsAmong(flows, part) + if HasListedParent(flows, f) then [] else [f]
    ensures forall id :: ChildrenAmong(flows, part + [f], id)
              == ChildrenAmong(flows, part, id) + if IsChildOf(flows, f, id) then [f] else []
  {
    FilterAppend(x => !HasListedParent(flows, x), part, [f]);
    forall id ensures ChildrenAmong(flows, part + [f], id)
                == ChildrenAmong(flows, part, id) + if IsChildOf(flows, f, id) then [f] else []
    {
      FilterAppend(x => IsChildOf(flows, x, id), part, [f]);
    }
  }

  /** The index `list_flow_tree` fills before it renders. */
  method IndexFlows(flows: seq<FlowRecord>)
    returns (childrenByParent: map<string, seq<FlowRecord>>, roots: seq<FlowRecord>)
    ensures roots == Roots(flows)
    ensures forall id :: (if id in childrenByParent then childrenByParent[id] else []) == Children(flows, id)
  {
    childrenByParent, roots := map[], [];
    for i := 0 to |flows|
      invariant roots == RootsAmong(flows, flows[..i])
      invariant forall id ::
          (if id in childrenByParent then childrenByParent[id] else []) == ChildrenAmong(flows, flows[..i], id)
    {
      var flow := flows[i];
      assert flows[..i + 1] == flows[..i] + [flow];
      AmongExtends(flows, flows[..i], flow);
      if HasListedParent(flows, flow) {
        var parent := flow.parentFlowId.value;
        var siblings := if parent in childrenByParent then childrenByParent[parent] else [];
        childrenByParent := childrenByParent[parent := siblings + [flow]];
      } else {
        roots := roots + [flow];
      }
    }
    assert flows[..|flows|] == flows;
  }

  lemma NodesSnoc(flows: seq<FlowRecord>, siblings: seq<FlowRecord>, last: FlowRecord, path: seq<FlowRecord>)
    requires DistinctIds(flows) && forall f :: f in siblings + [last] ==> Ancestry(flows, path, f)
    ensures (forall f :: f in siblings ==> Ancestry(flows, path, f)) && Ancestry(flows, path, last)
    ensures Nodes(flows, siblings + [last], path) == Nodes(flows, siblings, path) + [Node(flows, last, path)]
    decreases |siblings|
  {
    assert last in siblings + [last];
    if siblings == [] {
      assert [last][1..] == [];
    } else {
      assert (siblings + [last])[1..] == siblings[1..] + [last];
      NodesSnoc(flows, siblings[1..], last, path);
    }
  }

  method PrintRoots(flows: seq<FlowRecord>, roots: seq<FlowRecord>) returns (nodes: seq<Json>)
    requires DistinctIds(flows) && forall f :: f in roots ==> Ancestry(flows, [], f)
    ensures nodes == Nodes(flows, roots, [])
  {
    nodes := [];
    for i := 0 to |roots|
      invariant nodes == Nodes(flows, roots[..i], [])
    {
      assert roots[..i + 1] == roots[..i] + [roots[i]];
      NodesSnoc(flows, roots[..i], roots[i], []);
      nodes := nodes + [Node(flows, roots[i], [])];
    }
    assert roots[..|roots|] == roots;
  }

  method CountSteps(flows: seq<FlowRecord>) returns (steps: nat)
    ensures steps == StepCount(flows)
  {
    steps := 0;
    for i := 0 to |flows|
      invariant steps + StepCount(flows[i..]) == StepCount(flows)
    {
      steps := steps + |flows[i].steps|;
      assert flows[i..][1..] == flows[i + 1..];
    }
  }

  /** `list_flow_tree` over the flows it was given. */
  method ListFlowTree(flows: seq<FlowRecord>) returns (tree: Json)
    requires DistinctIds(flows)
    ensures tree == Tree(flows)
  {
    var childrenByParent, roots := IndexFlows(flows);
    RootAncestry(flows);
    var nodes := PrintRoots(flows, ByCreation(roots));
    var steps := CountSteps(flows);
    tree := Dict([Field("total_flows", Number(|flows|)), Field("total_steps", Number(steps)),
                  Field("root_count", Number(|nodes|)), Field("roots", List(nodes))]);
  }
}
