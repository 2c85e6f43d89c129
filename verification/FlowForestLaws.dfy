/** Reading the printed flow tree back gives each flow whose parent chain leaves the list, once, in preorder. */
module FlowForestLaws {
  import opened Collections
  import opened Ordering
  import opened Filtering
  import opened FlowForest

  ghost function Preorder(flows: seq<FlowRecord>, f: FlowRecord, path: seq<FlowRecord>): seq<FlowRecord>
    requires DistinctIds(flows) && Ancestry(flows, path, f)
    decreases |flows| - |path|, 0, 0
  {
    AncestryBound(flows, path, f);
    ChildAncestry(flows, path, f);
    [f] + PreorderAll(flows, ByCreation(Children(flows, f.flowId)), path + [f])
  }

  ghost function PreorderAll(flows: seq<FlowRecord>, siblings: seq<FlowRecord>, path: seq<FlowRecord>): seq<FlowRecord>
    requires DistinctIds(flows) && forall f :: f in siblings ==> Ancestry(flows, path, f)
    decreases |flows| - |path|, 1, |siblings|
  {
    if siblings == [] then [] else Preorder(flows, siblings[0], path) + PreorderAll(flows, siblings[1..], path)
  }

  /** The whole forest: roots first, each followed by its subtree. */
  ghost function Shown(flows: seq<FlowRecord>): seq<FlowRecord>
    requires DistinctIds(flows)
  {
    RootAncestry(flows);
    PreorderAll(flows, ByCreation(Roots(flows)), [])
  }

  // ----- which flows are shown, and how often -----

  /** The flow at this depth of the chain of g, g itself included. */
  ghost predicate PassesThrough(flows: seq<FlowRecord>, g: FlowRecord, path: seq<FlowRecord>, f: FlowRecord) {
    exists q :: Ancestry(flows, q, g) && path + [f] <= q + [g]
  }

  lemma PassesThroughOne(flows: seq<FlowRecord>, g: FlowRecord, path: seq<FlowRecord>, a: FlowRecord, b: FlowRecord)
    requires DistinctIds(flows) && PassesThrough(flows, g, path, a) && PassesThrough(flows, g, path, b)
    ensures a == b
  {
    var p :| Ancestry(flows, p, g) && path + [a] <= p + [g];
    var q :| Ancestry(flows, q, g) && path + [b] <= q + [g];
    AncestryUnique(flows, p, q, g);
    assert (path + [a])[|path|] == (p + [g])[|path|] == (path + [b])[|path|];
  }

  /** A subtree holds exactly the flows whose chain passes through its root, each once. */
  lemma {:induction false} PreorderCounts(flows: seq<FlowRecord>, f: FlowRecord, path: seq<FlowRecord>, g: FlowRecord)
    requires DistinctIds(flows) && Ancestry(flows, path, f)
    ensures multiset(Preorder(flows, f, path))[g] == if PassesThrough(flows, g, path, f) then 1 else 0
    decreases |flows| - |path|, 0, 0
  {
    AncestryBound(flows, path, f);
    ChildAncestry(flows, path, f);
    var kids := ByCreation(Children(flows, f.flowId));
    SiblingsCount(flows, kids, path + [f], g);
    KidsDistinct(flows, f.flowId);
    PassesThroughSelf(flows, path, f);
    forall c | PassesThrough(flows, g, path + [f], c) ensures PassesThrough(flows, g, path, f) {
      PassesThroughParent(flows, g, path, f, c);
    }
    if g == f {
      NoKidAboveSelf(flows, path, f);
    } else if PassesThrough(flows, g, path, f) {
      var q :| Ancestry(flows, q, g) && path + [f] <= q + [g];
      ChainContinues(flows, path, f, g, q);
    }
  }

  lemma PassesThroughSelf(flows: seq<FlowRecord>, path: seq<FlowRecord>, f: FlowRecord)
    requires Ancestry(flows, path, f)
    ensures PassesThrough(flows, f, path, f)
  {
  }

  lemma PassesThroughParent(flows: seq<FlowRecord>, g: FlowRecord, path: seq<FlowRecord>, f: FlowRecord, c: FlowRecord)
    requires PassesThrough(flows, g, path + [f], c)
    ensures PassesThrough(flows, g, path, f)
  {
  }

  lemma {:induction false} SiblingsCount(flows: seq<FlowRecord>, siblings: seq<FlowRecord>, path: seq<FlowRecord>,
                                         g: FlowRecord)
    requires DistinctIds(flows) && forall f :: f in siblings ==> Ancestry(flows, path, f)
    ensures Distinct(siblings) ==>
      multiset(PreorderAll(flows, siblings, path))[g]
        == if exists c :: c in siblings && PassesThrough(flows, g, path, c) then 1 else 0
    decreases |flows| - |path|, 1, |siblings|
  {
    if siblings != [] && Distinct(siblings) {
      PreorderCounts(flows, siblings[0], path, g);
      SiblingsCount(flows, siblings[1..], path, g);
      assert siblings == [siblings[0]] + siblings[1..];
      if PassesThrough(flows, g, path, siblings[0]) {
        OnlyThroughFirst(flows, siblings, path, g);
      }
    }
  }

  lemma OnlyThroughFirst(flows: seq<FlowRecord>, siblings: seq<FlowRecord>, path: seq<FlowRecord>, g: FlowRecord)
    requires DistinctIds(flows) && forall f :: f in siblings ==> Ancestry(flows, path, f)
    requires siblings != [] && Distinct(siblings) && PassesThrough(flows, g, path, siblings[0])
    ensures forall c :: c in siblings[1..] ==> !PassesThrough(flows, g, path, c)
  {
    forall c | c in siblings[1..] ensures !PassesThrough(flows, g, path, c) {
      if PassesThrough(flows, g, path, c) {
        PassesThroughOne(flows, g, path, siblings[0], c);
      }
    }
  }

  lemma FilterDistinct<T>(p: T -> bool, xs: seq<T>)
    requires Distinct(xs)
    ensures Distinct(Filter(p, xs))
  {
    if xs != [] {
      FilterDistinct(p, xs[1..]);
      FilterMembers(p, xs[1..]);
    }
  }

  lemma ByCreationDistinct(part: seq<FlowRecord>)
    requires Distinct(part)
    ensures Distinct(ByCreation(part))
  {
    SortPermutes((a, b) => CreatedBefore(a, b), part);
    DistinctByMultiset(part, ByCreation(part));
  }

  lemma KidsDistinct(flows: seq<FlowRecord>, id: string)
    requires DistinctIds(flows)
    ensures Distinct(ByCreation(Children(flows, id)))
  {
    FilterDistinct(f => IsChildOf(flows, f, id), flows);
    ByCreationDistinct(Children(flows, id));
  }

  lemma RootsDistinct(flows: seq<FlowRecord>)
    requires DistinctIds(flows)
    ensures Distinct(ByCreation(Roots(flows)))
  {
    FilterDistinct(f => !HasListedParent(flows, f), flows);
    ByCreationDistinct(Roots(flows));
  }

  lemma NoKidAboveSelf(flows: seq<FlowRecord>, path: seq<FlowRecord>, f: FlowRecord)
    requires DistinctIds(flows) && Ancestry(flows, path, f)
    ensures forall c :: !PassesThrough(flows, f, path + [f], c)
  {
    forall c ensures !PassesThrough(flows, f, path + [f], c) {
      if PassesThrough(flows, f, path + [f], c) {
        var q :| Ancestry(flows, q, f) && path + [f] + [c] <= q + [f];
        AncestryUnique(flows, path, q, f);
      }
    }
  }

  lemma ChildIsListed(flows: seq<FlowRecord>, c: FlowRecord, id: string)
    requires c in flows && IsChildOf(flows, c, id)
    ensures c in ByCreation(Children(flows, id))
  {
    FilterMembers(x => IsChildOf(flows, x, id), flows);
    SortPermutes((a, b) => CreatedBefore(a, b), Children(flows, id));
    SameMembers(Children(flows, id), ByCreation(Children(flows, id)));
  }

  lemma ChainContinues(flows: seq<FlowRecord>, path: seq<FlowRecord>, f: FlowRecord, g: FlowRecord, q: seq<FlowRecord>)
    requires DistinctIds(flows) && Ancestry(flows, path, f) && Ancestry(flows, q, g) && path + [f] <= q + [g] && f != g
    ensures exists c :: c in ByCreation(Children(flows, f.flowId)) && PassesThrough(flows, g, path + [f], c)
  {
    var n := |path|;
    var c := (q + [g])[n + 1];
    assert (q + [g])[n] == (path + [f])[n] == f;
    assert path + [f] + [c] <= q + [g];
    if n + 1 < |q| {
      AncestryPrefix(flows, q, g, n + 1);
      assert q[..n + 1][|q[..n + 1]| - 1] == f;
    }
    ChildIsListed(flows, c, f.flowId);
    assert PassesThrough(flows, g, path + [f], c);
  }

  /** Each flow is shown exactly once if its parent chain leaves the list, and not at all otherwise. */
  lemma ShownOnceIffRooted(flows: seq<FlowRecord>, g: FlowRecord)
    requires DistinctIds(flows)
    ensures multiset(Shown(flows))[g] == if Rooted(flows, g) then 1 else 0
    ensures g in Shown(flows) <==> Rooted(flows, g)
  {
    RootAncestry(flows);
    RootsDistinct(flows);
    SiblingsCount(flows, ByCreation(Roots(flows)), [], g);
    if Rooted(flows, g) {
      var q :| Ancestry(flows, q, g);
      var r := (q + [g])[0];
      if q != [] {
        AncestryPrefix(flows, q, g, 0);
      }
      FilterMembers(f => !HasListedParent(flows, f), flows);
      SortPermutes((a, b) => CreatedBefore(a, b), Roots(flows));
      assert [] + [r] <= q + [g];
      assert PassesThrough(flows, g, [], r);
    }
    assert g in Shown(flows) <==> g in multiset(Shown(flows));
  }

  lemma ShownDistinct(flows: seq<FlowRecord>)
    requires DistinctIds(flows)
    ensures DifferentIds(Shown(flows))
  {
    var shown := Shown(flows);
    forall x ensures multiset(shown)[x] <= 1 && (x in shown ==> x in flows) {
      ShownOnceIffRooted(flows, x);
    }
    CountedOnce(shown);
    forall i, j | 0 <= i < j < |shown| && shown[i].flowId == shown[j].flowId ensures shown[i] == shown[j] {
      SameId(flows, shown[i], shown[j]);
    }
  }

  lemma CountedOnce<T>(xs: seq<T>)
    requires forall x :: multiset(xs)[x] <= 1
    ensures Distinct(xs)
  {
    forall i, j | 0 <= i < j < |xs| ensures xs[i] != xs[j] {
      assert xs == xs[..i] + [xs[i]] + xs[i + 1..j] + [xs[j]] + xs[j + 1..];
      assert multiset(xs)[xs[i]] <= 1;
    }
  }

  ghost predicate ParentIn(flows: seq<FlowRecord>, ring: set<FlowRecord>, x: FlowRecord) {
    exists y :: y in ring && IsChildOf(flows, x, y.flowId)
  }

  /** Every flow of the set has its parent in the set. */
  ghost predicate ClosedUpwards(flows: seq<FlowRecord>, ring: set<FlowRecord>) {
    forall x {:trigger ParentIn(flows, ring, x)} :: x in ring ==> x in flows && ParentIn(flows, ring, x)
  }

  /** Flows whose parents stay inside one set, such as a cycle and everything hanging from it, are never shown. */
  lemma CyclesAreDropped(flows: seq<FlowRecord>, ring: set<FlowRecord>, f: FlowRecord)
    requires DistinctIds(flows) && f in ring && ClosedUpwards(flows, ring)
    ensures f !in Shown(flows)
  {
    ShownOnceIffRooted(flows, f);
    forall q ensures !Ancestry(flows, q, f) {
      RingHasNoRoot(flows, ring, q, f);
    }
  }

  lemma {:induction false} RingHasNoRoot(flows: seq<FlowRecord>, ring: set<FlowRecord>, q: seq<FlowRecord>,
                                         f: FlowRecord)
    requires DistinctIds(flows) && f in ring && ClosedUpwards(flows, ring)
    ensures !Ancestry(flows, q, f)
    decreases |q|
  {
    assert ParentIn(flows, ring, f);
    var y :| y in ring && IsChildOf(flows, f, y.flowId);
    assert ParentIn(flows, ring, y) || y in flows;
    if q != [] {
      var p := q[|q| - 1];
      RingHasNoRoot(flows, ring, q[..|q| - 1], y);
      if p in flows && p.flowId == y.flowId {
        SameId(flows, y, p);
      }
    }
  }

  /** Siblings, and roots, are shown in order of creation time and then id. */
  lemma SiblingsInCreationOrder(part: seq<FlowRecord>, i: nat, j: nat)
    requires i < j < |part|
    ensures |ByCreation(part)| == |part| && multiset(ByCreation(part)) == multiset(part)
    ensures
      var first, second := ByCreation(part)[i], ByCreation(part)[j];
      && StringLe(first.createdAt, second.createdAt)
      && (first.createdAt == second.createdAt ==> StringLe(first.flowId, second.flowId))
  {
    var le := (a: FlowRecord, b: FlowRecord) => CreatedBefore(a, b);
    StringOrderIsTotal();
    forall x, y, z | le(x, y) && le(y, z) ensures le(x, z) {
      if x.createdAt == z.createdAt {
        StringLeAntisymmetric(x.createdAt, y.createdAt);
      }
    }
    forall x, y ensures le(x, y) || le(y, x) {
      StringLeTotal(x.createdAt, y.createdAt);
      StringLeTotal(x.flowId, y.flowId);
    }
    SortSorted(le, part);
    SortPermutes(le, part);
    assert ByCreation(part) == Sort(le, part);
  }

  // ----- reading back -----

  /** `flow_records` keeps only dicts with a non-empty id and type. */
  predicate Named(f: FlowRecord) {
    f.flowId != "" && f.flowType != ""
  }

  ghost function Entry(f: FlowRecord): seq<Field> {
    if Named(f) then [Field(f.flowId, FlowView(f))] else []
  }

  /** The dict entries of a list of flows. */
  ghost function Entries(fs: seq<FlowRecord>): seq<Field> {
    if fs == [] then [] else Entry(fs[0]) + Entries(fs[1..])
  }

  ghost function Views(fs: seq<FlowRecord>): seq<Json> {
    Values(Entries(fs))
  }

  ghost function PutAll(found: seq<Field>, entries: seq<Field>): seq<Field>
    decreases |entries|
  {
    if entries == [] then found else PutAll(Put(found, entries[0].key, entries[0].value), entries[1..])
  }

  lemma {:induction false} PutAllAppend(found: seq<Field>, a: seq<Field>, b: seq<Field>)
    ensures PutAll(found, a + b) == PutAll(PutAll(found, a), b)
    decreases |a|
  {
    if a == [] {
      assert a + b == b;
    } else {
      assert (a + b)[1..] == a[1..] + b;
      PutAllAppend(Put(found, a[0].key, a[0].value), a[1..], b);
    }
  }

  lemma {:induction false} EntriesAppend(a: seq<FlowRecord>, b: seq<FlowRecord>)
    ensures Entries(a + b) == Entries(a) + Entries(b)
  {
    if a == [] {
      assert a + b == b;
    } else {
      assert (a + b)[1..] == a[1..] + b;
      EntriesAppend(a[1..], b);
      assert (a + b)[0] == a[0];
      Associate(Entry(a[0]), Entries(a[1..]), Entries(b));
    }
  }

  lemma {:induction false} VisitTexts(found: seq<Field>, ss: seq<string>)
    ensures VisitItems(found, Texts(ss)) == found
  {
    if ss != [] {
      VisitTexts(found, ss[1..]);
    }
  }

  /** Nested step records, which name their flow but have no flow type, never count as flows. */
  lemma StepNeverShadowsFlow(found: seq<Field>, f: FlowRecord, s: StepRecord)
    ensures Visit(found, StepView(f, s)) == found
  {
    var fields := StepView(f, s).fields;
    NoFlowType(f, s);
    VisitTexts(found, s.actions);
    assert forall i :: 0 <= i < 6 ==> Visit(found, fields[i].value) == found;
    assert Visit(found, fields[6].value) == found;
    QuietFields(found, fields);
  }

  lemma NoFlowType(f: FlowRecord, s: StepRecord)
    ensures Lookup(StepView(f, s).fields, "flow_type") == None
  {
    MissingKey(StepView(f, s).fields, "flow_type");
  }

  lemma {:induction false} MissingKey(fields: seq<Field>, key: string)
    requires forall i :: 0 <= i < |fields| ==> fields[i].key != key
    ensures Lookup(fields, key) == None
  {
    if fields != [] {
      MissingKey(fields[1..], key);
    }
  }

  lemma {:induction false} QuietFields(found: seq<Field>, fields: seq<Field>)
    requires forall i :: 0 <= i < |fields| ==> Visit(found, fields[i].value) == found
    ensures VisitFields(found, fields) == found
  {
    if fields != [] {
      QuietFields(found, fields[1..]);
    }
  }

  lemma {:induction false} VisitSteps(found: seq<Field>, f: FlowRecord, steps: seq<StepRecord>)
    ensures VisitItems(found, StepViews(f, steps)) == found
  {
    if steps != [] {
      StepNeverShadowsFlow(found, f, steps[0]);
      VisitSteps(found, f, steps[1..]);
    }
  }

  lemma VisitFlowView(found: seq<Field>, f: FlowRecord)
    ensures Visit(found, FlowView(f)) == PutAll(found, Entry(f))
  {
    var v := FlowView(f);
    assert Lookup(v.fields, "flow_id") == Some(Text(f.flowId));
    assert v.fields[1..][0].key == "flow_type";
    assert Lookup(v.fields, "flow_type") == Lookup(v.fields[1..], "flow_type") == Some(Text(f.flowType));
    var found' := if Named(f) then Put(found, f.flowId, v) else found;
    VisitSteps(found', f, f.steps);
    QuietFields(found', v.fields);
    if Named(f) {
      assert PutAll(found, Entry(f)) == PutAll(found', Entry(f)[1..]);
    }
  }

  lemma EntriesOne(f: FlowRecord)
    ensures Entries([f]) == Entry(f)
  {
  }

  lemma {:induction false} VisitNode(flows: seq<FlowRecord>, f: FlowRecord, path: seq<FlowRecord>, found: seq<Field>)
    requires DistinctIds(flows) && Ancestry(flows, path, f)
    ensures Visit(found, Node(flows, f, path)) == PutAll(found, Entries(Preorder(flows, f, path)))
    decreases |flows| - |path|, 0, 0
  {
    AncestryBound(flows, path, f);
    ChildAncestry(flows, path, f);
    var node := Node(flows, f, path);
    var kids := ByCreation(Children(flows, f.flowId));
    MissingKey(node.fields, "flow_id");
    VisitFlowView(found, f);
    VisitNodes(flows, kids, path + [f], PutAll(found, Entries([f])));
    EntriesOne(f);
    EntriesAppend([f], PreorderAll(flows, kids, path + [f]));
    PutAllAppend(found, Entries([f]), Entries(PreorderAll(flows, kids, path + [f])));
    var rest := node.fields[1..];
    assert rest == [Field("children", List(Nodes(flows, kids, path + [f])))] && rest[1..] == [];
    var middle := Visit(found, node.fields[0].value);
    assert Visit(found, node) == VisitFields(found, node.fields) == VisitFields(middle, rest)
        == VisitFields(Visit(middle, rest[0].value), rest[1..]);
  }

  lemma {:induction false} VisitNodes(flows: seq<FlowRecord>, siblings: seq<FlowRecord>, path: seq<FlowRecord>,
                                      found: seq<Field>)
    requires DistinctIds(flows) && forall f :: f in siblings ==> Ancestry(flows, path, f)
    ensures VisitItems(found, Nodes(flows, siblings, path)) ==
            PutAll(found, Entries(PreorderAll(flows, siblings, path)))
    decreases |flows| - |path|, 1, |siblings|
  {
    if siblings != [] {
      VisitNode(flows, siblings[0], path, found);
      var first := Preorder(flows, siblings[0], path);
      VisitNodes(flows, siblings[1..], path, PutAll(found, Entries(first)));
      EntriesAppend(first, PreorderAll(flows, siblings[1..], path));
      PutAllAppend(found, Entries(first), Entries(PreorderAll(flows, siblings[1..], path)));
    }
  }

  lemma {:induction false} PutFresh(found: seq<Field>, key: string, value: Json)
    requires forall i :: 0 <= i < |found| ==> found[i].key != key
    ensures Put(found, key, value) == found + [Field(key, value)]
  {
    if found != [] {
      PutFresh(found[1..], key, value);
    }
  }

  ghost predicate DifferentIds(fs: seq<FlowRecord>) {
    forall i, j :: 0 <= i < j < |fs| ==> fs[i].flowId != fs[j].flowId
  }

  ghost predicate DifferentKeys(entries: seq<Field>) {
    forall i, j :: 0 <= i < j < |entries| ==> entries[i].key != entries[j].key
  }

  lemma {:induction false} EntryMembers(fs: seq<FlowRecord>, e: Field)
    ensures e in Entries(fs) <==> exists f :: f in fs && Named(f) && e == Field(f.flowId, FlowView(f))
  {
    if fs != [] {
      EntryMembers(fs[1..], e);
      assert fs == [fs[0]] + fs[1..];
    }
  }

  lemma {:induction false} EntriesDistinct(fs: seq<FlowRecord>)
    requires DifferentIds(fs)
    ensures DifferentKeys(Entries(fs))
  {
    if fs != [] {
      var rest := fs[1..];
      EntriesDistinct(rest);
      forall e | e in Entries(rest) ensures e.key != fs[0].flowId {
        EntryMembers(rest, e);
      }
    }
  }

  lemma {:induction false} PutAllDistinct(found: seq<Field>, entries: seq<Field>)
    requires DifferentKeys(found + entries)
    ensures PutAll(found, entries) == found + entries
    decreases |entries|
  {
    if entries != [] {
      assert forall i :: 0 <= i < |found| ==>
                           found[i] == (found + entries)[i] && (found + entries)[|found|] == entries[0];
      PutFresh(found, entries[0].key, entries[0].value);
      assert found + [entries[0]] + entries[1..] == found + entries;
      PutAllDistinct(found + [entries[0]], entries[1..]);
    }
  }

  lemma VisitRoots(found: seq<Field>, nodes: seq<Json>, flows: seq<FlowRecord>)
    ensures Visit(found, Dict([Field("total_flows", Number(|flows|)), Field("total_steps", Number(StepCount(flows))),
                               Field("root_count", Number(|nodes|)), Field("roots", List(nodes))])) ==
            VisitItems(found, nodes)
  {
    var f := [Field("total_flows", Number(|flows|)), Field("total_steps", Number(StepCount(flows))),
              Field("root_count", Number(|nodes|)), Field("roots", List(nodes))];
    MissingKey(f, "flow_id");
    assert VisitFields(found, f) == VisitFields(found, f[1..]);
    assert VisitFields(found, f[1..]) == VisitFields(found, f[1..][1..]);
    assert f[1..][1..] == f[2..];
    assert VisitFields(found, f[2..]) == VisitFields(found, f[2..][1..]);
    assert f[2..][1..] == f[3..] && f[3..][1..] == [];
    assert VisitFields(found, f[3..]) == VisitFields(Visit(found, f[3].value), f[3..][1..]);
  }

  /** The round trip: flattening the printed tree lists exactly the shown flows, in the order they are shown. */
  lemma FlatteningReturnsTheShownFlows(flows: seq<FlowRecord>)
    requires DistinctIds(flows)
    ensures Values(Visit([], Tree(flows))) == Views(Shown(flows))
  {
    RootAncestry(flows);
    VisitNodes(flows, ByCreation(Roots(flows)), [], []);
    VisitRoots([], Nodes(flows, ByCreation(Roots(flows)), []), flows);
    ShownDistinct(flows);
    EntriesDistinct(Shown(flows));
    assert [] + Entries(Shown(flows)) == Entries(Shown(flows));
    PutAllDistinct([], Entries(Shown(flows)));
  }

  lemma {:induction false} ValueMembers(found: seq<Field>, v: Json)
    ensures v in Values(found) <==> exists e :: e in found && e.value == v
  {
    if found != [] {
      ValueMembers(found[1..], v);
      assert found == [found[0]] + found[1..];
    }
  }

  lemma ViewMembers(fs: seq<FlowRecord>, v: Json)
    ensures v in Views(fs) <==> exists f :: f in fs && Named(f) && v == FlowView(f)
  {
    ValueMembers(Entries(fs), v);
    if v in Views(fs) {
      var e :| e in Entries(fs) && e.value == v;
      EntryMembers(fs, e);
    }
    forall f | f in fs && Named(f) && v == FlowView(f) ensures v in Views(fs) {
      EntryMembers(fs, Field(f.flowId, v));
      assert Field(f.flowId, v).value == v;
    }
  }

  /** So a flow comes back exactly when its chain leaves the list, and nothing else comes back. */
  lemma FlatteningIsExact(flows: seq<FlowRecord>, v: Json)
    requires DistinctIds(flows)
    ensures v in Values(Visit([], Tree(flows))) <==>
            exists f :: f in flows && Rooted(flows, f) && Named(f) && v == FlowView(f)
  {
    FlatteningReturnsTheShownFlows(flows);
    ViewMembers(Shown(flows), v);
    forall f ensures f in Shown(flows) <==> f in flows && Rooted(flows, f) {
      ShownOnceIffRooted(flows, f);
    }
  }
}
