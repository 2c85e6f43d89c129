/**
 * Which repositories an Admin mutation guards (`_admin_mutation_repo_roots`), and which record each of them is locked
 * by (`_admin_runtime_record_for_repo_root`): the record of the stripped directory name.
 */
module RepoRoots {
  import opened Filtering
  import opened Ordering
  import opened Strings

    type Root = string

  ghost predicate Ascending(roots: seq<Root>) {
    forall i, j :: 0 <= i < j < |roots| ==> StringLt(roots[i], roots[j])
  }

  lemma StringLtTransitive(a: string, b: string, c: string)
    requires StringLt(a, b) && StringLt(b, c)
    ensures StringLt(a, c)
  {
    StringLeTransitive(a, b, c);
    if a == c {
      StringLeAntisymmetric(a, b);
    }
  }

  // ----- which roots a call guards -----

  /** An argument of a mutation: a path, or an object with some of the attributes that name roots. */
  datatype Argument =
    | PathArgument(path: string)
    | Fields(requirementUpdate: bool, repoRoot: Option<string>, consumerRepoRoot: Option<string>,
             workspaceRoot: Option<string>, repoKeys: seq<string>, targetRepo: Option<string>,
             repoName: Option<string>, consumerRepo: Option<string>, flowId: Option<string>, stepId: Option<string>)

  datatype FlowInput = FlowInput(repoRoot: Option<string>, repoPath: Option<string>)

  /**
   * What an API object knows: its workspace and the repositories in it, the inputs of its flows, and how paths are
   * joined and resolved and a flow or step is traced to a root.
   */
  datatype Site = Site(workspaceRoot: Option<string>, workspaceRepos: seq<string>, flows: seq<FlowInput>,
                       join: (string, string) -> string, resolve: string -> Root,
                       rootOf: (Option<string>, Option<string>) -> Option<Root>)

  function Identity(id: Option<string>): Option<string> { if Truthy(id) then id else None }

  function InputPath(f: FlowInput): Option<string> { if Truthy(f.repoRoot) then f.repoRoot else f.repoPath }

  /** The argument names the root r. */
  ghost predicate Names(site: Site, v: Argument, r: Root) {
    match v
    case PathArgument(path) => r == site.resolve(path)
    case Fields(_, _, _, _, _, _, _, _, _, _) =>
      || (v.requirementUpdate && site.workspaceRoot.Some?
          && exists d :: d in site.workspaceRepos && r == site.resolve(d))
      || (Truthy(v.repoRoot) && r == site.resolve(v.repoRoot.value))
      || (Truthy(v.consumerRepoRoot) && r == site.resolve(v.consumerRepoRoot.value))
      || (Truthy(v.workspaceRoot) && NamesInWorkspace(site, v, r))
      || (site.workspaceRoot.Some? && Truthy(v.consumerRepo)
          && r == site.resolve(site.join(site.workspaceRoot.value, v.consumerRepo.value)))
      || site.rootOf(if v.flowId == Some("") then None else v.flowId, if v.stepId == Some("") then None else v.stepId)
         == Some(r)
  }

  ghost predicate NamesInWorkspace(site: Site, v: Argument, r: Root)
    requires v.Fields? && v.workspaceRoot.Some?
  {
    var base := v.workspaceRoot.value;
    || (exists k :: k in v.repoKeys && r == site.resolve(site.join(base, k)))
    || (Truthy(v.targetRepo) && r == site.resolve(site.join(base, v.targetRepo.value)))
    || (Truthy(v.repoName) && r == site.resolve(site.join(base, v.repoName.value)))
  }

  ghost predicate NamedBy(site: Site, values: seq<Argument>, r: Root) {
    exists v :: v in values && Names(site, v, r)
  }

  ghost predicate OfSomeFlow(site: Site, flows: seq<FlowInput>, r: Root) {
    exists f :: f in flows && OfFlow(site, f, r)
  }

  ghost predicate OfFlow(site: Site, f: FlowInput, r: Root) {
    exists path :: PathOf(f, path) && r == site.resolve(path)
  }

  /** The path in the input of a flow: its repository root, or the repository path if it has no root. */
  predicate PathOf(f: FlowInput, path: string) {
    && path != ""
    && (f.repoRoot == Some(path) || ((f.repoRoot == None || f.repoRoot == Some("")) && f.repoPath == Some(path)))
  }

  lemma OfFlowIff(site: Site, f: FlowInput, r: Root)
    ensures OfFlow(site, f, r) <==> Truthy(InputPath(f)) && r == site.resolve(InputPath(f).value)
  {
    assert Truthy(InputPath(f)) ==> PathOf(f, InputPath(f).value);
  }

  method AddResolved(site: Site, paths: seq<string>, roots: set<Root>) returns (added: set<Root>)
    ensures forall r :: r in added <==> r in roots || exists p :: p in paths && r == site.resolve(p)
  {
    added := roots;
    for i := 0 to |paths|
      invariant forall r :: r in added <==> r in roots || exists p :: p in paths[..i] && r == site.resolve(p)
    {
      assert paths[..i + 1] == paths[..i] + [paths[i]];
      added := added + {site.resolve(paths[i])};
    }
    assert paths[..|paths|] == paths;
  }

  /** The roots of one argument; `continue` after a path. */
  method AddNamed(site: Site, v: Argument, roots: set<Root>) returns (added: set<Root>)
    ensures forall r :: r in added <==> r in roots || Names(site, v, r)
  {
    added := roots;
    if v.PathArgument? {
      return added + {site.resolve(v.path)};
    }
    if v.requirementUpdate && site.workspaceRoot.Some? {
      added := AddResolved(site, site.workspaceRepos, added);
    }
    if Truthy(v.repoRoot) {
      added := added + {site.resolve(v.repoRoot.value)};
    }
    if Truthy(v.consumerRepoRoot) {
      added := added + {site.resolve(v.consumerRepoRoot.value)};
    }
    if Truthy(v.workspaceRoot) {
      added := AddInWorkspace(site, v, added);
    }
    if site.workspaceRoot.Some? && Truthy(v.consumerRepo) {
      added := added + {site.resolve(site.join(site.workspaceRoot.value, v.consumerRepo.value))};
    }
    var resolved := site.rootOf(Identity(v.flowId), Identity(v.stepId));
    if resolved.Some? {
      added := added + {resolved.value};
    }
  }

  method AddInWorkspace(site: Site, v: Argument, roots: set<Root>) returns (added: set<Root>)
    requires v.Fields? && v.workspaceRoot.Some?
    ensures forall r :: r in added <==> r in roots || NamesInWorkspace(site, v, r)
  {
    var base := v.workspaceRoot.value;
    added := roots;
    for i := 0 to |v.repoKeys|
      invariant forall r ::
          r in added <==> r in roots || exists k :: k in v.repoKeys[..i] && r == site.resolve(site.join(base, k))
    {
      assert v.repoKeys[..i + 1] == v.repoKeys[..i] + [v.repoKeys[i]];
      added := added + {site.resolve(site.join(base, v.repoKeys[i]))};
    }
    assert v.repoKeys[..|v.repoKeys|] == v.repoKeys;
    if Truthy(v.targetRepo) {
      added := added + {site.resolve(site.join(base, v.targetRepo.value))};
    }
    if Truthy(v.repoName) {
      added := added + {site.resolve(site.join(base, v.repoName.value))};
    }
  }

  /** `_admin_mutation_repo_roots`: the roots the arguments name, else those of the known flows; each once, sorted. */
  method MutationRoots(site: Site, values: seq<Argument>) returns (roots: seq<Root>)
    ensures Ascending(roots)
    ensures (exists r :: NamedBy(site, values, r)) ==> forall r :: r in roots <==> NamedBy(site, values, r)
    ensures (forall r :: !NamedBy(site, values, r)) ==> forall r :: r in roots <==> OfSomeFlow(site, site.flows, r)
  {
    var found: set<Root> := {};
    for i := 0 to |values|
      invariant forall r :: r in found <==> NamedBy(site, values[..i], r)
    {
      assert values[..i + 1] == values[..i] + [values[i]];
      assert forall r :: NamedBy(site, values[..i + 1], r) <==>
          NamedBy(site, values[..i], r) || Names(site, values[i], r);
      found := AddNamed(site, values[i], found);
    }
    assert values[..|values|] == values;
    if found == {} {
      for i := 0 to |site.flows|
        invariant forall r :: r in found <==> OfSomeFlow(site, site.flows[..i], r)
      {
        assert site.flows[..i + 1] == site.flows[..i] + [site.flows[i]];
        var candidate := InputPath(site.flows[i]);
        forall r ensures OfFlow(site, site.flows[i], r) <==> Truthy(candidate) && r == site.resolve(candidate.value) {
          OfFlowIff(site, site.flows[i], r);
        }
        assert forall r :: OfSomeFlow(site, site.flows[..i + 1], r) <==>
            OfSomeFlow(site, site.flows[..i], r) || OfFlow(site, site.flows[i], r);
        if Truthy(candidate) {
          found := found + {site.resolve(candidate.value)};
        }
      }
      assert site.flows[..|site.flows|] == site.flows;
    }
    roots := SortedMembers(found);
  }

  // ----- the record of a root -----

  function Beneath(workspace: string): string { if workspace == "/" then "/" else workspace + "/" }

  /** The name of a root that is a direct child of the workspace. */
  function ChildName(workspace: string, root: Root): Option<string> {
    var base := Beneath(workspace);
    if base < root && '/' !in root[|base|..] then Some(root[|base|..]) else None
  }

  /** `normalize_repo_key` */
  function NormalKey(key: string): Option<string> {
    var value := Strip(key);
    if value in {"", ".", ".."} || '/' in value || '\\' in value then None else Some(value)
  }

  /** The name of the record of a root; there is none without a registry, or for a root that is no child of it. */
  function RecordName(registry: Option<string>, root: Root): Option<string> {
    if registry.None? then None
    else
      match ChildName(registry.value, root)
      case None => None
      case Some(name) => NormalKey(name)
  }

  /** The root is the directory of this name directly below the workspace. */
  predicate DirectlyBelow(workspace: string, root: Root, name: string) {
    && name != "" && '/' !in name
    && root == (if workspace == "/" then "/" + name else workspace + "/" + name)
  }

  lemma ChildNameIff(workspace: string, root: Root, name: string)
    ensures ChildName(workspace, root) == Some(name) <==> DirectlyBelow(workspace, root, name)
  {
    var base := Beneath(workspace);
    if base < root {
      assert root == base + root[|base|..];
    }
    if DirectlyBelow(workspace, root, name) {
      assert root == base + name && root[|base|..] == name;
    }
  }

  /** A root has a record exactly if it is a directory below the workspace whose stripped name is a plain name. */
  lemma RecordNameIff(registry: Option<string>, root: Root, key: string)
    ensures RecordName(registry, root) == Some(key) <==>
            && registry.Some?
            && (exists name :: DirectlyBelow(registry.value, root, name) && Strip(name) == key)
            && key != "" && key != "." && key != ".." && '/' !in key && '\\' !in key
  {
    if registry.Some? {
      forall name
        ensures ChildName(registry.value, root) == Some(name) <==> DirectlyBelow(registry.value, root, name)
      {
        ChildNameIff(registry.value, root, name);
      }
    }
  }

  /** A call's sorted roots, and those of them for which a record was discovered when the call looked. */
  datatype Call = Call(roots: seq<Root>, found: set<Root>)

  function LockOf(registry: Option<string>, found: set<Root>): Root -> Option<string> {
    r => if r in found then RecordName(registry, r) else None
  }

  /** The records a call locks, in the order of its roots; different roots can have the same record. */
  function LockList(registry: Option<string>, call: Call): seq<string> {
    Collect(LockOf(registry, call.found), call.roots)
  }

  /** Every root of the call that is a child of the workspace has a name without surrounding white space. */
  predicate PlainNames(registry: Option<string>, call: Call) {
    registry.Some? ==>
      forall i :: 0 <= i < |call.roots| ==>
        var name := ChildName(registry.value, call.roots[i]);
        name.Some? ==> IsStripped(name.value)
  }

  lemma {:induction false} CommonPrefix(p: string, a: string, b: string)
    requires StringLt(p + a, p + b)
    ensures StringLt(a, b)
  {
    if p == "" {
      assert p + a == a && p + b == b;
    } else {
      assert (p + a)[1..] == p[1..] + a && (p + b)[1..] == p[1..] + b;
      CommonPrefix(p[1..], a, b);
    }
  }

  lemma PlainNamesOrdered(registry: Option<string>, call: Call, i: nat, j: nat)
    requires PlainNames(registry, call) && Ascending(call.roots) && i < j < |call.roots|
    requires RecordName(registry, call.roots[i]).Some? && RecordName(registry, call.roots[j]).Some?
    ensures StringLt(RecordName(registry, call.roots[i]).value, RecordName(registry, call.roots[j]).value)
  {
    var base := Beneath(registry.value);
    var r, q := call.roots[i], call.roots[j];
    assert r == base + r[|base|..] && q == base + q[|base|..];
    CommonPrefix(base, r[|base|..], q[|base|..]);
  }

  /** Plain names keep the order of their roots, so the records are locked in ascending order, each once. */
  lemma PlainLocksAscend(registry: Option<string>, call: Call)
    requires PlainNames(registry, call) && Ascending(call.roots)
    ensures Ascending(LockList(registry, call))
  {
    var f := LockOf(registry, call.found);
    forall i, j | 0 <= i < j < |call.roots| && f(call.roots[i]).Some? && f(call.roots[j]).Some?
      ensures StringLt(f(call.roots[i]).value, f(call.roots[j]).value)
    {
      PlainNamesOrdered(registry, call, i, j);
    }
    CollectOrdered(f, StringLt, call.roots);
  }
}
