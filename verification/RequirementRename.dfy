/**
 * Changing a dependency requirement across the repositories of a workspace (`update_repo_requirement`): the references
 * of every preparation input, the requirements of the affected provider groups, and the all-or-nothing commit.
 */
module RequirementRename {
  import opened Collections
  import opened Ordering

  type Key = string

  datatype Status = Open | Satisfied | Handled | Obsolete

  datatype Route =
    | Auto
    | Native(evidence: string)
    | Adapter(url: string, subdir: Option<string>, revision: Option<string>, package: Option<string>,
              importModule: Option<string>, evidence: string)

  datatype Interface = Interface(name: string, content: string)

  datatype Requirement = Requirement(name: Key, target: Key, status: Status, interfaces: seq<Interface>, route: Route,
                                     provider: Option<string>, content: string)

  datatype Ref = Ref(consumer: Key, requirement: Key)

  datatype Preparation = Preparation(refs: seq<Ref>, content: string)

  /**
   * A repository: its readable requirement files by file name, the names of requirement files that exist but do not
   * read, and its preparation input when that reads. Nothing ties a file's name to the name stored in it.
   */
  datatype Repo = Repo(requirements: map<Key, Requirement>, broken: set<Key>, preparation: Option<Preparation>)

  type Repos = map<Key, Repo>

  datatype Update = Update(consumer: Key, currentName: Key, replacement: Requirement)

  predicate Found(repos: Repos, u: Update) {
    u.consumer in repos && u.currentName in repos[u.consumer].requirements
  }

  function Current(repos: Repos, u: Update): Requirement
    requires Found(repos, u)
  {
    repos[u.consumer].requirements[u.currentName]
  }

  // ----- references -----

  function OldRef(u: Update): Ref { Ref(u.consumer, u.currentName) }

  function RenameRef(u: Update, ref: Ref): Ref {
    if ref == OldRef(u) then Ref(u.consumer, u.replacement.name) else ref
  }

  function RenameRefs(u: Update, refs: seq<Ref>): seq<Ref> {
    seq(|refs|, i requires 0 <= i < |refs| => RenameRef(u, refs[i]))
  }

  predicate Mentions(repo: Repo, ref: Ref) {
    repo.preparation.Some? && ref in repo.preparation.value.refs
  }

  /** The preparation inputs that are rewritten. The test compares stored names, the rewrite uses file names. */
  predicate Rewrites(repos: Repos, u: Update, d: Key)
    requires Found(repos, u)
  {
    d in repos && Mentions(repos[d], OldRef(u)) && Current(repos, u).name != u.replacement.name
  }

  function NewPreparation(repos: Repos, u: Update, d: Key): Option<Preparation>
    requires Found(repos, u) && d in repos
  {
    if Rewrites(repos, u, d) then
      var p := repos[d].preparation.value;
      Some(p.(refs := RenameRefs(u, p.refs)))
    else repos[d].preparation
  }

  function NewRequirements(repos: Repos, u: Update, d: Key): map<Key, Requirement>
    requires Found(repos, u) && d in repos
  {
    if d == u.consumer then (repos[d].requirements - {u.currentName})[u.replacement.name := u.replacement]
    else repos[d].requirements
  }

  /** The workspace after the commit. */
  function Committed(repos: Repos, u: Update): Repos
    requires Found(repos, u)
  {
    map d | d in repos :: repos[d].(requirements := NewRequirements(repos, u, d),
                                    preparation := NewPreparation(repos, u, d))
  }

  /** The new name is another one, and there is a file of that name already, readable or not. */
  predicate NameTaken(repos: Repos, u: Update) {
    u.replacement.name != u.currentName
    && u.consumer in repos
    && (u.replacement.name in repos[u.consumer].requirements || u.replacement.name in repos[u.consumer].broken)
  }

  method RewriteRefs(refs: seq<Ref>, u: Update, storedName: Key) returns (rewritten: seq<Ref>, changed: bool)
    ensures rewritten == RenameRefs(u, refs)
    ensures changed <==> OldRef(u) in refs && storedName != u.replacement.name
  {
    rewritten, changed := [], false;
    for i := 0 to |refs|
      invariant rewritten == RenameRefs(u, refs[..i])
      invariant changed <==> OldRef(u) in refs[..i] && storedName != u.replacement.name
    {
      assert refs[..i + 1] == refs[..i] + [refs[i]];
      if refs[i].consumer == u.consumer && refs[i].requirement == u.currentName {
        rewritten := rewritten + [refs[i].(requirement := u.replacement.name)];
        changed := changed || storedName != u.replacement.name;
      } else {
        rewritten := rewritten + [refs[i]];
      }
    }
    assert refs[..|refs|] == refs;
  }

  method PreparationUpdates(repos: Repos, u: Update) returns (updates: map<Key, Preparation>)
    requires Found(repos, u)
    ensures forall d :: d in updates <==> Rewrites(repos, u, d)
    ensures forall d :: d in updates ==> d in repos && NewPreparation(repos, u, d) == Some(updates[d])
  {
    updates := map[];
    var dirs := SortedMembers(repos.Keys);
    for i := 0 to |dirs|
      invariant forall d :: d in updates <==> d in dirs[..i] && Rewrites(repos, u, d)
      invariant forall d :: d in updates ==> d in repos && NewPreparation(repos, u, d) == Some(updates[d])
    {
      var d := dirs[i];
      assert d in dirs;
      assert dirs[..i + 1] == dirs[..i] + [d];
      if repos[d].preparation.Some? {
        var p := repos[d].preparation.value;
        var refs, changed := RewriteRefs(p.refs, u, Current(repos, u).name);
        if changed {
          updates := updates[d := p.(refs := refs)];
        }
      }
    }
    assert dirs[..|dirs|] == dirs;
  }

  // ----- provider groups -----

  /** The requirement as the check sees it. The substitution goes by the stored name. */
  function Substituted(u: Update, d: Key, q: Requirement): Requirement {
    if d == u.consumer && q.name == u.currentName then u.replacement else q
  }

  /** q is an OPEN requirement for t that some repository holds, the replacement substituted. */
  ghost predicate InGroup(repos: Repos, u: Update, dirs: seq<Key>, t: Key, q: Requirement) {
    && q.target == t && q.status == Open
    && exists d, r :: d in dirs && HeldBy(repos, d, r) && q == Substituted(u, d, r)
  }

  /** r is listed for the repository d; a repository with a broken requirement file lists nothing. */
  ghost predicate HeldBy(repos: Repos, d: Key, r: Requirement) {
    d in repos && repos[d].broken == {} && r in repos[d].requirements.Values
  }

  function GroupOf(groups: map<Key, seq<Requirement>>, t: Key): seq<Requirement> {
    if t in groups then groups[t] else []
  }

  predicate NameLe(a: Requirement, b: Requirement) { StringLe(a.name, b.name) }

  method ListRequirements(repo: Repo) returns (views: seq<Requirement>)
    ensures forall q :: q in views <==> q in repo.requirements.Values
  {
    var files := SortedMembers(repo.requirements.Keys);
    var loaded := [];
    for i := 0 to |files|
      invariant |loaded| == i
      invariant forall k :: 0 <= k < i ==> loaded[k] == repo.requirements[files[k]]
    {
      assert files[i] in files;
      loaded := loaded + [repo.requirements[files[i]]];
    }
    assert forall q :: q in loaded ==> q in repo.requirements.Values;
    forall q | q in repo.requirements.Values ensures q in loaded {
      var f :| f in repo.requirements && repo.requirements[f] == q;
      assert f in files;
      var k :| 0 <= k < |files| && files[k] == f;
      assert loaded[k] == q;
    }
    views := Sort(NameLe, loaded);
    SortPermutes(NameLe, loaded);
    SameMembers(loaded, views);
  }

  /** What the first `i` views of the repository `d` add to the group of `t`. */
  ghost predicate AddedFrom(u: Update, d: Key, views: seq<Requirement>, t: Key, q: Requirement) {
    q.target == t && q.status == Open && exists r :: r in views && q == Substituted(u, d, r)
  }

  method AddViews(groups: map<Key, seq<Requirement>>, u: Update, d: Key, views: seq<Requirement>)
    returns (added: map<Key, seq<Requirement>>)
    ensures forall t, q :: q in GroupOf(added, t) <==> q in GroupOf(groups, t) || AddedFrom(u, d, views, t, q)
  {
    added := groups;
    for i := 0 to |views|
      invariant forall t, q ::
          q in GroupOf(added, t) <==> q in GroupOf(groups, t) || AddedFrom(u, d, views[..i], t, q)
    {
      var requirement := Substituted(u, d, views[i]);
      ghost var before := added;
      if requirement.status == Open {
        added := added[requirement.target := GroupOf(added, requirement.target) + [requirement]];
      }
      forall t, q
        ensures q in GroupOf(added, t) <==> q in GroupOf(groups, t) || AddedFrom(u, d, views[..i + 1], t, q)
      {
        AddedFromOneMore(u, d, views, i, t, q);
        assert q in GroupOf(added, t) <==>
          q in GroupOf(before, t) || (q == requirement && q.status == Open && q.target == t);
      }
    }
    assert views[..|views|] == views;
  }

  lemma AddedFromOneMore(u: Update, d: Key, views: seq<Requirement>, i: nat, t: Key, q: Requirement)
    requires i < |views|
    ensures AddedFrom(u, d, views[..i + 1], t, q) <==>
            AddedFrom(u, d, views[..i], t, q) ||
            (q == Substituted(u, d, views[i]) && q.status == Open && q.target == t)
  {
  }

  lemma InGroupOneMore(repos: Repos, u: Update, dirs: seq<Key>, i: nat, views: seq<Requirement>, t: Key, q: Requirement)
    requires i < |dirs|
    requires forall r :: r in views <==> HeldBy(repos, dirs[i], r)
    ensures InGroup(repos, u, dirs[..i + 1], t, q) <==>
            InGroup(repos, u, dirs[..i], t, q) || AddedFrom(u, dirs[i], views, t, q)
  {
  }

  method GroupRequirements(repos: Repos, u: Update, dirs: seq<Key>) returns (groups: map<Key, seq<Requirement>>)
    requires forall d :: d in dirs <==> d in repos
    ensures forall t, q :: q in GroupOf(groups, t) <==> InGroup(repos, u, dirs, t, q)
  {
    groups := map[];
    for i := 0 to |dirs|
      invariant forall t, q :: q in GroupOf(groups, t) <==> InGroup(repos, u, dirs[..i], t, q)
    {
      var d := dirs[i];
      assert d in dirs;
      var views := [];
      if repos[d].broken == {} {
        views := ListRequirements(repos[d]);
      }
      ghost var before := groups;
      groups := AddViews(groups, u, d, views);
      forall t, q ensures q in GroupOf(groups, t) <==> InGroup(repos, u, dirs[..i + 1], t, q) {
        InGroupOneMore(repos, u, dirs, i, views, t, q);
      }
    }
    assert dirs[..|dirs|] == dirs;
  }

  // ----- interfaces of one group -----

  function Offered(group: seq<Requirement>): seq<Interface> {
    if group == [] then [] else Offered(group[..|group| - 1]) + group[|group| - 1].interfaces
  }

  ghost predicate Disputed(offered: seq<Interface>, n: string) {
    exists f, g :: f in offered && g in offered && f.name == n == g.name && f != g
  }

  /** `interfaces`: the last one seen under each name. */
  ghost predicate LastSeen(offered: seq<Interface>, seen: map<string, Interface>) {
    && (forall n :: n in seen ==> seen[n] in offered && seen[n].name == n)
    && (forall f :: f in offered ==> f.name in seen)
  }

  /** Looking only at the last one seen reports the same names as comparing all pairs. */
  ghost predicate ReportsDisputes(offered: seq<Interface>, seen: map<string, Interface>, conflicts: seq<string>) {
    && LastSeen(offered, seen)
    && (forall n :: n in conflicts <==> Disputed(offered, n))
  }

  lemma SeesOneMore(offered: seq<Interface>, seen: map<string, Interface>, conflicts: seq<string>, f: Interface)
    requires ReportsDisputes(offered, seen, conflicts)
    ensures ReportsDisputes(offered + [f], seen[f.name := f],
                            if f.name in seen && seen[f.name] != f then conflicts + [f.name] else conflicts)
  {
  }

  method InterfaceConflicts(group: seq<Requirement>) returns (conflicts: seq<string>)
    ensures forall n :: n in conflicts <==> Disputed(Offered(group), n)
  {
    conflicts := [];
    var seen: map<string, Interface> := map[];
    for i := 0 to |group|
      invariant ReportsDisputes(Offered(group[..i]), seen, conflicts)
    {
      ghost var earlier := Offered(group[..i]);
      var interfaces := group[i].interfaces;
      assert earlier + interfaces[..0] == earlier;
      for j := 0 to |interfaces|
        invariant ReportsDisputes(earlier + interfaces[..j], seen, conflicts)
      {
        var interface := interfaces[j];
        SeesOneMore(earlier + interfaces[..j], seen, conflicts, interface);
        assert earlier + interfaces[..j + 1] == earlier + interfaces[..j] + [interface];
        if interface.name in seen && seen[interface.name] != interface {
          conflicts := conflicts + [interface.name];
        }
        seen := seen[interface.name := interface];
      }
      assert earlier + interfaces[..|interfaces|] == earlier + interfaces;
      assert group[..i + 1][..i] == group[..i];
    }
    assert group[..|group|] == group;
  }

  lemma {:induction false} OfferedMembers(group: seq<Requirement>)
    ensures forall f :: f in Offered(group) <==> exists q :: q in group && f in q.interfaces
  {
    if group != [] {
      var last := group[|group| - 1];
      var init := group[..|group| - 1];
      OfferedMembers(init);
      assert group == init + [last];
      assert forall q :: q in group <==> q in init || q == last;
    }
  }

  ghost function Members(group: seq<Requirement>): iset<Requirement> { iset q | q in group }

  ghost predicate Offers(group: iset<Requirement>, f: Interface) {
    exists q :: q in group && f in q.interfaces
  }

  /** The requirements of one group agree pairwise on every interface name. */
  ghost predicate Agree(group: iset<Requirement>) {
    forall f, g :: Offers(group, f) && Offers(group, g) && f.name == g.name ==> f == g
  }

  ghost predicate DisputedIn(group: iset<Requirement>, n: string) {
    exists f, g :: Offers(group, f) && Offers(group, g) && f.name == n == g.name && f != g
  }

  lemma OfferedIsOffers(group: seq<Requirement>)
    ensures forall f :: f in Offered(group) <==> Offers(Members(group), f)
    ensures forall n :: Disputed(Offered(group), n) <==> DisputedIn(Members(group), n)
  {
    OfferedMembers(group);
    var members := Members(group);
    assert forall f :: f in Offered(group) <==> Offers(members, f);
  }

  lemma AgreeIff(group: iset<Requirement>)
    ensures Agree(group) <==> forall n :: !DisputedIn(group, n)
  {
    if forall n :: !DisputedIn(group, n) {
      forall f, g | Offers(group, f) && Offers(group, g) && f.name == g.name ensures f == g {
        assert !DisputedIn(group, f.name);
      }
    }
  }

  /** The check reports no name exactly if all requirements of the group agree pairwise on every interface. */
  lemma NoConflictIffAllAgree(group: seq<Requirement>, conflicts: seq<string>)
    requires forall n :: n in conflicts <==> Disputed(Offered(group), n)
    ensures conflicts == [] <==> Agree(Members(group))
  {
    OfferedIsOffers(group);
    AgreeIff(Members(group));
    if conflicts == [] {
      forall n ensures !DisputedIn(Members(group), n) {
        assert n !in conflicts;
      }
    } else {
      assert conflicts[0] in conflicts;
    }
  }

  // ----- provider routes of one group -----

  function Routes(group: seq<Requirement>): set<Route> { set q | q in group :: q.route }

  function Adapters(group: seq<Requirement>): set<Route> { set r | r in Routes(group) && r.Adapter? }

  function Identities(routes: set<Route>): set<(string, Option<string>)> {
    set r | r in routes && r.Adapter? :: (r.url, r.subdir)
  }

  function Revision(r: Route): Option<string> { if r.Adapter? then r.revision else None }
  function Package(r: Route): Option<string> { if r.Adapter? then r.package else None }
  function ImportModule(r: Route): Option<string> { if r.Adapter? then r.importModule else None }

  /** The distinct values given for an optional field. */
  function Given(routes: set<Route>, field: Route -> Option<string>): set<Option<string>> {
    set r | r in routes && field(r).Some? :: field(r)
  }

  /** `resolve_requirement_routes` finds a route. URLs are in the form `_canonical_git_url` gives. */
  predicate Resolvable(group: seq<Requirement>) {
    var adapters := Adapters(group);
    var natives := set r | r in Routes(group) && r.Native?;
    if adapters != {} && natives != {} then false
    else if adapters == {} then true
    else
      && |Identities(adapters)| == 1
      && |Given(adapters, Revision)| <= 1
      && |Given(adapters, Package)| <= 1
      && |Given(adapters, ImportModule)| <= 1
  }

  predicate SameIfGiven(a: Option<string>, b: Option<string>) { a.None? || b.None? || a == b }

  predicate SameIdentity(a: Route, b: Route) {
    a.Adapter? && b.Adapter? ==> a.url == b.url && a.subdir == b.subdir
  }

  predicate Compatible(a: Route, b: Route) {
    && !(a.Native? && b.Adapter?)
    && !(a.Adapter? && b.Native?)
    && (a.Adapter? && b.Adapter? ==>
          && a.url == b.url && a.subdir == b.subdir
          && SameIfGiven(a.revision, b.revision)
          && SameIfGiven(a.package, b.package)
          && SameIfGiven(a.importModule, b.importModule))
  }

  ghost predicate RoutesCompatible(group: iset<Requirement>) {
    forall p, q :: p in group && q in group ==> Compatible(p.route, q.route)
  }

  lemma AtMostOne<T>(s: set<T>)
    ensures |s| <= 1 <==> forall x, y :: x in s && y in s ==> x == y
  {
    if |s| > 1 {
      var x :| x in s;
      assert |s - {x}| > 0;
      var y :| y in s - {x};
    } else {
      forall x, y | x in s && y in s ensures x == y {
        assert x != y ==> |s - {x} - {y}| == |s| - 2;
      }
    }
  }

  lemma OneValueIsPairwise(routes: set<Route>, field: Route -> Option<string>)
    ensures |Given(routes, field)| <= 1 <==>
            forall a, b :: a in routes && b in routes ==> SameIfGiven(field(a), field(b))
  {
    AtMostOne(Given(routes, field));
    if |Given(routes, field)| <= 1 {
      forall a, b | a in routes && b in routes ensures SameIfGiven(field(a), field(b)) {
        assert field(a).Some? ==> field(a) in Given(routes, field);
        assert field(b).Some? ==> field(b) in Given(routes, field);
      }
    }
  }

  lemma OneIdentityIsPairwise(routes: set<Route>)
    requires routes != {} && forall r :: r in routes ==> r.Adapter?
    ensures |Identities(routes)| == 1 <==> forall a, b :: a in routes && b in routes ==> SameIdentity(a, b)
  {
    AtMostOne(Identities(routes));
    var r :| r in routes;
    assert (r.url, r.subdir) in Identities(routes);
    if |Identities(routes)| <= 1 {
      forall a, b | a in routes && b in routes ensures SameIdentity(a, b) {
        assert (a.url, a.subdir) in Identities(routes) && (b.url, b.subdir) in Identities(routes);
      }
    }
  }

  lemma CountingIsPairwise(routes: set<Route>)
    requires routes != {} && forall r :: r in routes ==> r.Adapter?
    ensures (|Identities(routes)| == 1 && |Given(routes, Revision)| <= 1
             && |Given(routes, Package)| <= 1 && |Given(routes, ImportModule)| <= 1) <==>
            forall a, b :: a in routes && b in routes ==> Compatible(a, b)
  {
    OneIdentityIsPairwise(routes);
    OneValueIsPairwise(routes, Revision);
    OneValueIsPairwise(routes, Package);
    OneValueIsPairwise(routes, ImportModule);
    if forall a, b :: a in routes && b in routes ==> Compatible(a, b) {
      assert forall a, b :: a in routes && b in routes ==> SameIdentity(a, b);
    }
  }

  lemma RoutesArePairwise(group: seq<Requirement>)
    ensures RoutesCompatible(Members(group)) <==>
            forall a, b :: a in Routes(group) && b in Routes(group) ==> Compatible(a, b)
  {
  }

  /** Counting distinct values finds a route exactly if the routes of the group are pairwise compatible. */
  lemma ResolvableIffCompatible(group: seq<Requirement>)
    ensures Resolvable(group) <==> RoutesCompatible(Members(group))
  {
    RoutesArePairwise(group);
    var adapters := Adapters(group);
    var natives := set r | r in Routes(group) && r.Native?;
    if adapters == {} {
      forall a, b | a in Routes(group) && b in Routes(group) ensures Compatible(a, b) {
        assert a !in adapters && b !in adapters;
      }
    } else if natives != {} {
      var a, b :| a in adapters && b in natives;
      assert !Compatible(a, b);
    } else {
      CountingIsPairwise(adapters);
      assert forall r :: r in Routes(group) && r !in adapters ==> r !in natives;
      forall a, b | a in Routes(group) && b in Routes(group) && !(a in adapters && b in adapters)
        ensures Compatible(a, b) {}
    }
  }

  // ----- the whole update -----

  datatype Flow = Flow(id: string, refs: seq<string>, waiting: Option<string>, resuming: Option<string>, terminal: bool)

  datatype Runtime = Runtime(paused: bool, runningSteps: bool, runningAgents: bool, activeAdvance: bool)

  /** The flows of the loaded repositories, the consumer's runtime when it is loaded, and what the services answer. */
  datatype Environment = Environment(flows: seq<Flow>, runtime: Option<Runtime>, checkpointOk: bool, commitOk: bool)

  datatype Blocker =
    | IdentityAfterOpen
    | ProviderMissing
    | RouteConflict(target: Key)
    | InterfaceConflict(target: Key, name: string)
    | NonterminalFlow(id: string)
    | NotPaused
    | StepsRunning
    | AgentsRunning
    | AdvanceActive

  datatype Outcome =
    | NotFound
    | DigestMismatch
    | Previewed(changed: bool, blockers: seq<Blocker>)
    | Blocked(blockers: seq<Blocker>)
    | CheckpointFailed
    | NameDuplicate
    | CommitFailed
    | Applied

  ghost function Group(repos: Repos, u: Update, t: Key): iset<Requirement> {
    iset d, r | HeldBy(repos, d, r) && Substituted(u, d, r).target == t && Substituted(u, d, r).status == Open
    :: Substituted(u, d, r)
  }

  predicate IdentityChanged(current: Requirement, u: Update) {
    current.name != u.replacement.name || current.target != u.replacement.target
  }

  predicate ProviderGiven(q: Requirement) {
    q.status == Satisfied || q.status == Handled ==> Truthy(q.provider)
  }

  predicate Affected(flow: Flow, u: Update) {
    || u.consumer + ":" + u.currentName in flow.refs
    || flow.waiting == Some(u.currentName)
    || flow.resuming == Some(u.currentName)
  }

  ghost predicate FlowsAtBoundary(flows: seq<Flow>, u: Update, current: Requirement) {
    IdentityChanged(current, u) ==> forall f :: f in flows && Affected(f, u) ==> f.terminal
  }

  predicate RuntimeAtRest(env: Environment) {
    env.runtime.Some? ==>
      && env.runtime.value.paused
      && !env.runtime.value.runningSteps
      && !env.runtime.value.runningAgents
      && !env.runtime.value.activeAdvance
  }

  ghost predicate GroupAgrees(repos: Repos, u: Update, t: Key) {
    RoutesCompatible(Group(repos, u, t)) && Agree(Group(repos, u, t))
  }

  /** What an update must satisfy to be applied. */
  ghost predicate Admissible(repos: Repos, u: Update, env: Environment)
    requires Found(repos, u)
  {
    var current := Current(repos, u);
    && (IdentityChanged(current, u) ==> current.status == Open)
    && ProviderGiven(u.replacement)
    && GroupAgrees(repos, u, current.target)
    && GroupAgrees(repos, u, u.replacement.target)
    && FlowsAtBoundary(env.flows, u, current)
    && RuntimeAtRest(env)
  }

  ghost predicate RaisedByGroup(group: iset<Requirement>, t: Key, b: Blocker) {
    match b
    case RouteConflict(x) => x == t && !RoutesCompatible(group)
    case InterfaceConflict(x, n) => x == t && DisputedIn(group, n)
    case _ => false
  }

  ghost predicate RaisedByFlows(flows: seq<Flow>, u: Update, current: Requirement, b: Blocker) {
    b.NonterminalFlow? && IdentityChanged(current, u)
    && exists f :: f in flows && Affected(f, u) && !f.terminal && f.id == b.id
  }

  predicate RaisedByRuntime(env: Environment, b: Blocker) {
    && env.runtime.Some?
    && match b
       case NotPaused => !env.runtime.value.paused
       case StepsRunning => env.runtime.value.runningSteps
       case AgentsRunning => env.runtime.value.runningAgents
       case AdvanceActive => env.runtime.value.activeAdvance
       case _ => false
  }

  /** The update gives reason for this blocker. */
  ghost predicate Raised(repos: Repos, u: Update, env: Environment, b: Blocker)
    requires Found(repos, u)
  {
    var current := Current(repos, u);
    || (b == IdentityAfterOpen && IdentityChanged(current, u) && current.status != Open)
    || (b == ProviderMissing && !ProviderGiven(u.replacement))
    || RaisedByGroup(Group(repos, u, current.target), current.target, b)
    || RaisedByGroup(Group(repos, u, u.replacement.target), u.replacement.target, b)
    || RaisedByFlows(env.flows, u, current, b)
    || RaisedByRuntime(env, b)
  }

  lemma GroupRaisesNothing(group: iset<Requirement>, t: Key)
    ensures (forall b :: !RaisedByGroup(group, t, b)) <==> RoutesCompatible(group) && Agree(group)
  {
    AgreeIff(group);
    if forall b :: !RaisedByGroup(group, t, b) {
      assert !RaisedByGroup(group, t, RouteConflict(t));
      forall n ensures !DisputedIn(group, n) {
        assert !RaisedByGroup(group, t, InterfaceConflict(t, n));
      }
    }
  }

  lemma FlowsRaiseNothing(flows: seq<Flow>, u: Update, current: Requirement)
    ensures (forall b :: !RaisedByFlows(flows, u, current, b)) <==> FlowsAtBoundary(flows, u, current)
  {
    if forall b :: !RaisedByFlows(flows, u, current, b) {
      forall f | f in flows && Affected(f, u) && IdentityChanged(current, u) ensures f.terminal {
        assert !RaisedByFlows(flows, u, current, NonterminalFlow(f.id));
      }
    }
  }

  lemma RuntimeRaisesNothing(env: Environment)
    ensures (forall b :: !RaisedByRuntime(env, b)) <==> RuntimeAtRest(env)
  {
    if forall b :: !RaisedByRuntime(env, b) {
      assert !RaisedByRuntime(env, NotPaused) && !RaisedByRuntime(env, StepsRunning);
      assert !RaisedByRuntime(env, AgentsRunning) && !RaisedByRuntime(env, AdvanceActive);
    }
  }

  /** An update is admissible exactly if there is reason for no blocker. */
  lemma AdmissibleIffNothingRaised(repos: Repos, u: Update, env: Environment)
    requires Found(repos, u)
    ensures Admissible(repos, u, env) <==> forall b :: !Raised(repos, u, env, b)
  {
    var current := Current(repos, u);
    GroupRaisesNothing(Group(repos, u, current.target), current.target);
    GroupRaisesNothing(Group(repos, u, u.replacement.target), u.replacement.target);
    FlowsRaiseNothing(env.flows, u, current);
    RuntimeRaisesNothing(env);
    if forall b :: !Raised(repos, u, env, b) {
      assert !Raised(repos, u, env, IdentityAfterOpen) && !Raised(repos, u, env, ProviderMissing);
      forall b
        ensures !RaisedByGroup(Group(repos, u, current.target), current.target, b)
        ensures !RaisedByGroup(Group(repos, u, u.replacement.target), u.replacement.target, b)
        ensures !RaisedByFlows(env.flows, u, current, b)
        ensures !RaisedByRuntime(env, b)
      {
        assert !Raised(repos, u, env, b);
      }
    }
  }

  /** The update gives the requirement another name or another target. */
  predicate Moves(repos: Repos, u: Update)
    requires Found(repos, u)
  {
    var current := repos[u.consumer].requirements[u.currentName];
    current.name != u.replacement.name || current.target != u.replacement.target
  }

  /** The flow needs the requirement under its current name: by reference, or waiting for it, or resuming it. */
  predicate Needs(f: Flow, consumer: Key, name: Key) {
    consumer + ":" + name in f.refs || f.waiting == Some(name) || f.resuming == Some(name)
  }

  /** An admissible update, told in the fields of the requirement, the flows and the runtime. */
  lemma AdmissibleIff(repos: Repos, u: Update, env: Environment)
    requires Found(repos, u)
    ensures Admissible(repos, u, env) <==>
      var current := repos[u.consumer].requirements[u.currentName];
      && (Moves(repos, u) ==> current.status == Open)
      && (u.replacement.status in [Satisfied, Handled] ==>
            u.replacement.provider != None && u.replacement.provider != Some(""))
      && GroupAgrees(repos, u, current.target) && GroupAgrees(repos, u, u.replacement.target)
      && (Moves(repos, u) ==> forall f :: f in env.flows && !f.terminal ==> !Needs(f, u.consumer, u.currentName))
      && (env.runtime.Some? ==>
            && env.runtime.value.paused && !env.runtime.value.runningSteps
            && !env.runtime.value.runningAgents && !env.runtime.value.activeAdvance)
  {
  }

  /** A flow blocks an update that renames or retargets exactly if it is not terminal and needs the requirement. */
  lemma FlowBlocksIff(repos: Repos, u: Update, env: Environment, id: string)
    requires Found(repos, u)
    ensures Raised(repos, u, env, NonterminalFlow(id)) <==>
            && Moves(repos, u)
            && exists f :: f in env.flows && f.id == id && !f.terminal && Needs(f, u.consumer, u.currentName)
  {
  }

  lemma EmptyIffNothing(blockers: seq<Blocker>, repos: Repos, u: Update, env: Environment)
    requires Found(repos, u)
    requires forall b :: b in blockers <==> Raised(repos, u, env, b)
    ensures blockers == [] <==> Admissible(repos, u, env)
  {
    AdmissibleIffNothingRaised(repos, u, env);
    if blockers == [] {
      forall b ensures !Raised(repos, u, env, b) {
        assert b !in blockers;
      }
    } else {
      assert blockers[0] in blockers;
    }
  }

  /** The update is not a preview: the requirement is the one expected and is to be changed. */
  predicate Proceeds(repos: Repos, u: Update, expected: Requirement, dryRun: bool) {
    Found(repos, u) && Current(repos, u) == expected && !dryRun && expected != u.replacement
  }

  predicate Checkpointed(env: Environment) { env.runtime.Some? ==> env.checkpointOk }

  lemma GroupIsCollected(repos: Repos, u: Update, dirs: seq<Key>, t: Key, group: seq<Requirement>)
    requires forall d :: d in dirs <==> d in repos
    requires forall q :: q in group <==> InGroup(repos, u, dirs, t, q)
    ensures Members(group) == Group(repos, u, t)
  {
  }

  method GroupBlockers(group: seq<Requirement>, t: Key) returns (blockers: seq<Blocker>)
    ensures forall b :: b in blockers <==> RaisedByGroup(Members(group), t, b)
  {
    ResolvableIffCompatible(group);
    OfferedIsOffers(group);
    blockers := if Resolvable(group) then [] else [RouteConflict(t)];
    var names := InterfaceConflicts(group);
    for i := 0 to |names|
      invariant RouteConflict(t) in blockers <==> !Resolvable(group)
      invariant forall n :: InterfaceConflict(t, n) in blockers <==> n in names[..i]
      invariant forall b :: b in blockers ==> b == RouteConflict(t) || (b.InterfaceConflict? && b.target == t)
    {
      blockers := blockers + [InterfaceConflict(t, names[i])];
      assert names[..i + 1] == names[..i] + [names[i]];
    }
    assert names[..|names|] == names;
  }

  method AffectedGroupBlockers(repos: Repos, u: Update) returns (blockers: seq<Blocker>)
    requires Found(repos, u)
    ensures
      var first, second := Current(repos, u).target, u.replacement.target;
      forall b :: b in blockers <==>
        RaisedByGroup(Group(repos, u, first), first, b) || RaisedByGroup(Group(repos, u, second), second, b)
  {
    var dirs := SortedMembers(repos.Keys);
    var groups := GroupRequirements(repos, u, dirs);
    blockers := [];
    var targets := SortedMembers({Current(repos, u).target, u.replacement.target});
    for i := 0 to |targets|
      invariant forall b :: b in blockers <==>
        exists k :: 0 <= k < i && RaisedByGroup(Group(repos, u, targets[k]), targets[k], b)
    {
      var more := GroupBlockers(GroupOf(groups, targets[i]), targets[i]);
      GroupIsCollected(repos, u, dirs, targets[i], GroupOf(groups, targets[i]));
      blockers := blockers + more;
    }
    forall k | 0 <= k < |targets| ensures targets[k] == Current(repos, u).target || targets[k] == u.replacement.target {
      assert targets[k] in targets;
    }
    assert Current(repos, u).target in targets && u.replacement.target in targets;
  }

  method FlowBlockers(flows: seq<Flow>, u: Update, current: Requirement) returns (blockers: seq<Blocker>)
    ensures forall b :: b in blockers <==> RaisedByFlows(flows, u, current, b)
  {
    blockers := [];
    for i := 0 to |flows|
      invariant forall b :: b in blockers <==> RaisedByFlows(flows[..i], u, current, b)
    {
      assert flows[..i + 1] == flows[..i] + [flows[i]];
      assert forall f :: f in flows[..i + 1] <==> f in flows[..i] || f == flows[i];
      if Affected(flows[i], u) && IdentityChanged(current, u) && !flows[i].terminal {
        blockers := blockers + [NonterminalFlow(flows[i].id)];
      }
    }
    assert flows[..|flows|] == flows;
  }

  function RuntimeBlockers(env: Environment): (blockers: seq<Blocker>)
    ensures forall b :: b in blockers <==> RaisedByRuntime(env, b)
  {
    if env.runtime.None? then []
    else
      (if env.runtime.value.paused then [] else [NotPaused]) +
      (if env.runtime.value.runningSteps then [StepsRunning] else []) +
      (if env.runtime.value.runningAgents then [AgentsRunning] else []) +
      (if env.runtime.value.activeAdvance then [AdvanceActive] else [])
  }

  /** The preparation inputs staged one by one. */
  method StagePreparations(repos: Repos, updates: map<Key, Preparation>) returns (staged: Repos)
    requires updates.Keys <= repos.Keys
    ensures staged.Keys == repos.Keys
    ensures forall d :: d in repos ==>
      staged[d] == if d in updates then repos[d].(preparation := Some(updates[d])) else repos[d]
  {
    staged := repos;
    var pending := updates.Keys;
    while pending != {}
      invariant pending <= updates.Keys
      invariant staged.Keys == repos.Keys
      invariant forall d :: d in repos ==>
        staged[d] == if d in updates && d !in pending then repos[d].(preparation := Some(updates[d])) else repos[d]
      decreases |pending|
    {
      var d :| d in pending;
      staged := staged[d := staged[d].(preparation := Some(updates[d]))];
      pending := pending - {d};
    }
  }

  class Workspace {
    var repos: Repos

    /** The staged writes, applied together. */
    method Commit(u: Update, updates: map<Key, Preparation>)
      requires Found(repos, u) && !NameTaken(repos, u)
      requires forall d :: d in updates <==> Rewrites(repos, u, d)
      requires forall d :: d in updates ==> d in repos && NewPreparation(repos, u, d) == Some(updates[d])
      modifies this
      ensures repos == Committed(old(repos), u)
    {
      ghost var before := repos;
      var files := repos[u.consumer].requirements;
      if u.replacement.name != u.currentName {
        files := files - {u.currentName};
      }
      files := files[u.replacement.name := u.replacement];
      var withFile := repos[u.consumer := repos[u.consumer].(requirements := files)];
      var staged := StagePreparations(withFile, updates);
      repos := staged;
      assert files == NewRequirements(before, u, u.consumer);
    }

    /** `expected` is the requirement the operator previewed: a digest stands for the requirement it was made from. */
    method UpdateRequirement(u: Update, expected: Requirement, dryRun: bool, env: Environment)
      returns (outcome: Outcome)
      modifies this
      ensures outcome != Applied ==> repos == old(repos)
      ensures outcome == Applied ==> Found(old(repos), u) && repos == Committed(old(repos), u)
      ensures outcome == Applied && u.replacement.name != u.currentName ==>
                && u.replacement.name !in old(repos)[u.consumer].requirements
                && u.replacement.name !in old(repos)[u.consumer].broken
      ensures outcome == NameDuplicate ==> u.replacement.name != u.currentName
      ensures outcome == Applied && Moves(old(repos), u) ==>
                forall f :: f in env.flows && !f.terminal ==> !Needs(f, u.consumer, u.currentName)
      ensures outcome == NotFound <==> !Found(old(repos), u)
      ensures outcome == DigestMismatch <==> Found(old(repos), u) && Current(old(repos), u) != expected
      ensures outcome.Previewed? <==>
              Found(old(repos), u) && Current(old(repos), u) == expected && (dryRun || expected == u.replacement)
      ensures outcome.Previewed? || outcome.Blocked? ==>
                forall b :: b in outcome.blockers <==> Raised(old(repos), u, env, b)
      ensures outcome.Previewed? ==> (outcome.blockers == [] <==> Admissible(old(repos), u, env))
      ensures outcome.Previewed? ==> (outcome.changed <==> expected != u.replacement)
      ensures outcome.Blocked? <==>
              Proceeds(old(repos), u, expected, dryRun) && !Admissible(old(repos), u, env)
      ensures outcome == CheckpointFailed <==>
              Proceeds(old(repos), u, expected, dryRun) && Admissible(old(repos), u, env) && !Checkpointed(env)
      ensures outcome == NameDuplicate <==>
              && Proceeds(old(repos), u, expected, dryRun) && Admissible(old(repos), u, env) && Checkpointed(env)
              && NameTaken(old(repos), u)
      ensures outcome == Applied <==>
              && Proceeds(old(repos), u, expected, dryRun) && Admissible(old(repos), u, env) && Checkpointed(env)
              && !NameTaken(old(repos), u) && env.commitOk
    {
      if !Found(repos, u) {
        return NotFound;
      }
      var current := Current(repos, u);
      if current != expected {
        return DigestMismatch;
      }
      AdmissibleIff(repos, u, env);
      var blockers: seq<Blocker> := [];
      if IdentityChanged(current, u) && current.status != Open {
        blockers := blockers + [IdentityAfterOpen];
      }
      if !ProviderGiven(u.replacement) {
        blockers := blockers + [ProviderMissing];
      }
      var updates := PreparationUpdates(repos, u);
      var groupBlockers := AffectedGroupBlockers(repos, u);
      var flowBlockers := FlowBlockers(env.flows, u, current);
      blockers := blockers + groupBlockers + flowBlockers + RuntimeBlockers(env);
      EmptyIffNothing(blockers, repos, u, env);
      var changed := current != u.replacement || updates != map[];
      if dryRun || !changed {
        return Previewed(changed, blockers);
      }
      if blockers != [] {
        return Blocked(blockers);
      }
      if !Checkpointed(env) {
        return CheckpointFailed;
      }
      if NameTaken(repos, u) {
        return NameDuplicate;
      }
      if !env.commitOk {
        return CommitFailed;
      }
      Commit(u, updates);
      outcome := Applied;
    }
  }
}
