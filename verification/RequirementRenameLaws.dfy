/** What a committed requirement update does to references and to the provider groups of the whole workspace. */
module RequirementRenameLaws {
  import opened Ordering
  import opened RequirementRename

  // ----- references -----

  predicate Resolves(repos: Repos, ref: Ref) {
    ref.consumer in repos && ref.requirement in repos[ref.consumer].requirements
  }

  predicate RefAt(repos: Repos, d: Key, i: nat) {
    d in repos && repos[d].preparation.Some? && i < |repos[d].preparation.value.refs|
  }

  function TheRef(repos: Repos, d: Key, i: nat): Ref
    requires RefAt(repos, d, i)
  {
    repos[d].preparation.value.refs[i]
  }

  /** Every list of references keeps its length; every other reference and everything else in the file stays. */
  lemma CommitOnlyRenames(repos: Repos, u: Update, d: Key, i: nat)
    requires Found(repos, u)
    ensures RefAt(Committed(repos, u), d, i) <==> RefAt(repos, d, i)
    ensures RefAt(repos, d, i) && TheRef(repos, d, i) != OldRef(u) ==>
              TheRef(Committed(repos, u), d, i) == TheRef(repos, d, i)
    ensures RefAt(repos, d, i) && TheRef(repos, d, i) == OldRef(u) ==>
              TheRef(Committed(repos, u), d, i) ==
              if Current(repos, u).name == u.replacement.name then OldRef(u) else Ref(u.consumer, u.replacement.name)
    ensures RefAt(repos, d, i) ==>
              Committed(repos, u)[d].preparation.value.content == repos[d].preparation.value.content
  {
  }

  lemma ResolvesAfter(repos: Repos, u: Update, ref: Ref)
    requires Found(repos, u)
    ensures Resolves(Committed(repos, u), ref) <==>
            ref == Ref(u.consumer, u.replacement.name) || (Resolves(repos, ref) && ref != OldRef(u))
  {
  }

  ghost predicate RefKept(repos: Repos, u: Update, d: Key, i: nat)
    requires Found(repos, u)
  {
    && RefAt(repos, d, i)
    && RefAt(Committed(repos, u), d, i)
    && (Resolves(repos, TheRef(repos, d, i)) ==> Resolves(Committed(repos, u), TheRef(Committed(repos, u), d, i)))
  }

  /** Every reference of a readable preparation input that resolved before resolves after. */
  ghost predicate ReferencesKept(repos: Repos, u: Update)
    requires Found(repos, u)
  {
    forall d, i: nat :: RefAt(repos, d, i) ==> RefKept(repos, u, d, i)
  }

  /** The file moves although the name stored in it already is the new one, so no reference is rewritten. */
  predicate MovesUnnoticed(repos: Repos, u: Update)
    requires Found(repos, u)
  {
    u.currentName != u.replacement.name && Current(repos, u).name == u.replacement.name
  }

  lemma OneRefKept(repos: Repos, u: Update, d: Key, i: nat)
    requires Found(repos, u) && RefAt(repos, d, i)
    ensures RefKept(repos, u, d, i) <==> !(MovesUnnoticed(repos, u) && TheRef(repos, d, i) == OldRef(u))
  {
  }

  /** A committed update keeps all references intact exactly if no readable reference names a file moved unnoticed. */
  lemma ReferencesKeptIff(repos: Repos, u: Update)
    requires Found(repos, u)
    ensures ReferencesKept(repos, u) <==>
            !(MovesUnnoticed(repos, u) && exists d :: d in repos && Mentions(repos[d], OldRef(u)))
  {
    forall d, i: nat | RefAt(repos, d, i)
      ensures RefKept(repos, u, d, i) <==> !(MovesUnnoticed(repos, u) && TheRef(repos, d, i) == OldRef(u))
      ensures TheRef(repos, d, i) == OldRef(u) ==> Mentions(repos[d], OldRef(u))
    {
      OneRefKept(repos, u, d, i);
    }
    if MovesUnnoticed(repos, u) && exists d :: d in repos && Mentions(repos[d], OldRef(u)) {
      var d :| d in repos && Mentions(repos[d], OldRef(u));
      var refs := repos[d].preparation.value.refs;
      var i :| 0 <= i < |refs| && refs[i] == OldRef(u);
      assert RefAt(repos, d, i);
      assert !RefKept(repos, u, d, i);
    }
  }

  /** When the stored name is the file's name, references survive every rename. */
  lemma MatchingNameKeepsReferences(repos: Repos, u: Update)
    requires Found(repos, u) && Current(repos, u).name == u.currentName
    ensures ReferencesKept(repos, u)
  {
  }

  /** No requirement is lost or gained, and no other repository's requirements change. */
  lemma RequirementsConserved(repos: Repos, u: Update, d: Key)
    requires Found(repos, u) && !NameTaken(repos, u) && d in repos
    ensures |Committed(repos, u)[d].requirements| == |repos[d].requirements|
    ensures d != u.consumer ==> Committed(repos, u)[d].requirements == repos[d].requirements
    ensures forall k :: k in repos[d].requirements && (d != u.consumer || k != u.currentName) ==>
              k in Committed(repos, u)[d].requirements
              && (Committed(repos, u)[d].requirements[k] == repos[d].requirements[k])
  {
  }

  function Plain(name: Key, target: Key, interfaces: seq<Interface>, content: string): Requirement {
    Requirement(name, target, Open, interfaces, Auto, None, content)
  }

  function Quiet(): Environment { Environment([], None, true, true) }

  /** An update with every check passed after which a reference that resolved no longer does. */
  lemma UnnoticedMoveBreaksAReference() returns (repos: Repos, u: Update)
    ensures Found(repos, u) && Admissible(repos, u, Quiet()) && !NameTaken(repos, u)
    ensures Current(repos, u) != u.replacement
    ensures !ReferencesKept(repos, u)
  {
    u := Update("app", "old", Plain("new", "lib", [], "b"));
    var app := Repo(map["old" := Plain("new", "lib", [], "a")], {}, Some(Preparation([Ref("app", "old")], "")));
    repos := map["app" := app];
    assert Ref("app", "old") in app.preparation.value.refs;
    assert Mentions(repos["app"], OldRef(u));
    ReferencesKeptIff(repos, u);
    forall t, p | p in Group(repos, u, t) ensures p.route == Auto && p.interfaces == [] {}
    assert Admissible(repos, u, Quiet());
  }

  // ----- provider groups -----

  /** The OPEN requirements for t that the workspace lists. */
  ghost function OpenFor(repos: Repos, t: Key): iset<Requirement> {
    iset d, r | HeldBy(repos, d, r) && r.target == t && r.status == Open :: r
  }

  /** In the consumer, the stored name that the substitution goes by singles out the file that is replaced. */
  ghost predicate NameFindsFile(repos: Repos, u: Update)
    requires Found(repos, u)
  {
    var files := repos[u.consumer].requirements;
    forall k :: k in files ==> (files[k].name == u.currentName <==> k == u.currentName)
  }

  lemma HeldAfter(repos: Repos, u: Update, d: Key, r: Requirement)
    requires Found(repos, u) && !NameTaken(repos, u) && NameFindsFile(repos, u)
    ensures HeldBy(Committed(repos, u), d, r) <==> exists q :: HeldBy(repos, d, q) && r == Substituted(u, d, q)
  {
    if d in repos {
      var before, after := repos[d].requirements, NewRequirements(repos, u, d);
      assert Committed(repos, u)[d].requirements == after;
      if HeldBy(Committed(repos, u), d, r) {
        var k :| k in after && after[k] == r;
        if d == u.consumer && k == u.replacement.name {
          assert HeldBy(repos, d, before[u.currentName]) && r == Substituted(u, d, before[u.currentName]);
        } else {
          assert HeldBy(repos, d, before[k]) && r == Substituted(u, d, before[k]);
        }
      }
      if exists q :: HeldBy(repos, d, q) && r == Substituted(u, d, q) {
        var q :| HeldBy(repos, d, q) && r == Substituted(u, d, q);
        var k :| k in before && before[k] == q;
        if d == u.consumer && k == u.currentName {
          assert after[u.replacement.name] == r;
        } else {
          assert k in after && after[k] == r;
        }
      }
    }
  }

  /** The group the checks looked at is the group of the workspace after the commit. */
  lemma CheckedGroupIsCommitted(repos: Repos, u: Update, t: Key)
    requires Found(repos, u) && !NameTaken(repos, u) && NameFindsFile(repos, u)
    ensures Group(repos, u, t) == OpenFor(Committed(repos, u), t)
  {
    forall r ensures r in Group(repos, u, t) <==> r in OpenFor(Committed(repos, u), t) {
      if r in Group(repos, u, t) {
        var d, q :| HeldBy(repos, d, q) && r == Substituted(u, d, q) && r.target == t && r.status == Open;
        HeldAfter(repos, u, d, r);
        assert HeldBy(Committed(repos, u), d, r);
      }
      if r in OpenFor(Committed(repos, u), t) {
        var d :| HeldBy(Committed(repos, u), d, r) && r.target == t && r.status == Open;
        HeldAfter(repos, u, d, r);
        var q :| HeldBy(repos, d, q) && r == Substituted(u, d, q);
      }
    }
  }

  lemma OtherGroupsUntouched(repos: Repos, u: Update, t: Key)
    requires Found(repos, u) && !NameTaken(repos, u)
    requires t != Current(repos, u).target && t != u.replacement.target
    ensures OpenFor(Committed(repos, u), t) == OpenFor(repos, t)
  {
    forall d, r: Requirement | r.target == t ensures HeldBy(Committed(repos, u), d, r) <==> HeldBy(repos, d, r) {
      if d in repos {
        var before, after := repos[d].requirements, NewRequirements(repos, u, d);
        assert Committed(repos, u)[d].requirements == after;
        if r in after.Values {
          var k :| k in after && after[k] == r;
          assert before[k] == r;
        }
        if r in before.Values {
          var k :| k in before && before[k] == r;
          assert after[k] == r;
        }
      }
    }
  }

  ghost predicate AllGroupsAgree(repos: Repos) {
    forall t :: RoutesCompatible(OpenFor(repos, t)) && Agree(OpenFor(repos, t))
  }

  /**
   * If the stored name singles out the file, an admissible update keeps every provider group of the workspace free of
   * route and interface conflicts.
   */
  lemma UpdateKeepsGroupsAgreeing(repos: Repos, u: Update, env: Environment)
    requires Found(repos, u) && !NameTaken(repos, u) && NameFindsFile(repos, u)
    requires Admissible(repos, u, env) && AllGroupsAgree(repos)
    ensures AllGroupsAgree(Committed(repos, u))
  {
    forall t ensures RoutesCompatible(OpenFor(Committed(repos, u), t)) && Agree(OpenFor(Committed(repos, u), t)) {
      if t == Current(repos, u).target || t == u.replacement.target {
        CheckedGroupIsCommitted(repos, u, t);
        assert GroupAgrees(repos, u, t);
      } else {
        OtherGroupsUntouched(repos, u, t);
      }
    }
  }

  // ----- exactly when the groups agree after a commit -----

  /** Compatible routes, and the same interface under every name both offer. */
  ghost predicate Fits(p: Requirement, q: Requirement) {
    && Compatible(p.route, q.route) && Compatible(q.route, p.route)
    && forall f, g :: f in p.interfaces && g in q.interfaces && f.name == g.name ==> f == g
  }

  /** r is listed for a repository, in a file other than the one that is replaced. */
  ghost predicate Remains(repos: Repos, u: Update, r: Requirement) {
    exists d, k ::
      && d in repos && repos[d].broken == {} && k in repos[d].requirements && repos[d].requirements[k] == r
      && (d != u.consumer || k != u.currentName)
  }

  /** The replacement fits itself and every OPEN requirement that remains for its target. */
  ghost predicate ReplacementFits(repos: Repos, u: Update) {
    && Fits(u.replacement, u.replacement)
    && forall r ::
         Remains(repos, u, r) && r.target == u.replacement.target && r.status == Open ==> Fits(u.replacement, r)
  }

  lemma PairwiseFits(group: iset<Requirement>)
    ensures RoutesCompatible(group) && Agree(group) <==> forall p, q :: p in group && q in group ==> Fits(p, q)
  {
    if RoutesCompatible(group) && Agree(group) {
      forall p, q | p in group && q in group ensures Fits(p, q) {
        forall f, g | f in p.interfaces && g in q.interfaces && f.name == g.name ensures f == g {
          assert Offers(group, f) && Offers(group, g);
        }
      }
    }
    if forall p, q :: p in group && q in group ==> Fits(p, q) {
      forall f, g | Offers(group, f) && Offers(group, g) && f.name == g.name ensures f == g {
        var p :| p in group && f in p.interfaces;
        var q :| q in group && g in q.interfaces;
        assert Fits(p, q);
      }
    }
  }

  /** The workspace lists the replacement after the commit. */
  predicate ListsReplacement(repos: Repos, u: Update)
    requires Found(repos, u)
  {
    repos[u.consumer].broken == {} && u.replacement.status == Open
  }

  lemma OpenAfter(repos: Repos, u: Update, t: Key, r: Requirement)
    requires Found(repos, u) && !NameTaken(repos, u)
    ensures r in OpenFor(Committed(repos, u), t) <==>
            && r.target == t && r.status == Open
            && (Remains(repos, u, r) || (r == u.replacement && ListsReplacement(repos, u)))
  {
    var after := Committed(repos, u);
    if r in OpenFor(after, t) {
      var d :| HeldBy(after, d, r);
      var k :| k in after[d].requirements && after[d].requirements[k] == r;
      assert d != u.consumer || k != u.replacement.name ==> k in repos[d].requirements;
    }
    if Remains(repos, u, r) {
      var d, k :| d in repos && repos[d].broken == {} && k in repos[d].requirements
                  && repos[d].requirements[k] == r && (d != u.consumer || k != u.currentName);
      assert after[d].requirements[k] == r;
      assert HeldBy(after, d, r);
    }
    if r == u.replacement && ListsReplacement(repos, u) {
      assert after[u.consumer].requirements[u.replacement.name] == r;
      assert HeldBy(after, u.consumer, r);
    }
  }

  lemma RemainsWasOpen(repos: Repos, u: Update, r: Requirement)
    requires Remains(repos, u, r) && r.status == Open
    ensures r in OpenFor(repos, r.target)
  {
    var d, k :| d in repos && repos[d].broken == {} && k in repos[d].requirements
                && repos[d].requirements[k] == r && (d != u.consumer || k != u.currentName);
    assert HeldBy(repos, d, r);
  }

  /**
   * Whatever is stored under whichever file name: a commit keeps all groups of the workspace free of conflicts exactly
   * if the replacement is not listed as OPEN, or fits itself and the OPEN requirements that remain for its target.
   */
  lemma GroupsAgreeAfterIff(repos: Repos, u: Update)
    requires Found(repos, u) && !NameTaken(repos, u) && AllGroupsAgree(repos)
    ensures AllGroupsAgree(Committed(repos, u)) <==> (ListsReplacement(repos, u) ==> ReplacementFits(repos, u))
  {
    if AllGroupsAgree(Committed(repos, u)) && ListsReplacement(repos, u) {
      AgreeingFits(repos, u);
    }
    if ListsReplacement(repos, u) ==> ReplacementFits(repos, u) {
      forall t ensures RoutesCompatible(OpenFor(Committed(repos, u), t)) && Agree(OpenFor(Committed(repos, u), t)) {
        FittingAgrees(repos, u, t);
      }
    }
  }

  lemma AgreeingFits(repos: Repos, u: Update)
    requires Found(repos, u) && !NameTaken(repos, u) && ListsReplacement(repos, u)
    requires AllGroupsAgree(Committed(repos, u))
    ensures ReplacementFits(repos, u)
  {
    var group := OpenFor(Committed(repos, u), u.replacement.target);
    PairwiseFits(group);
    OpenAfter(repos, u, u.replacement.target, u.replacement);
    forall r | Remains(repos, u, r) && r.target == u.replacement.target && r.status == Open
      ensures Fits(u.replacement, r)
    {
      OpenAfter(repos, u, u.replacement.target, r);
    }
  }

  lemma FittingAgrees(repos: Repos, u: Update, t: Key)
    requires Found(repos, u) && !NameTaken(repos, u) && AllGroupsAgree(repos)
    requires ListsReplacement(repos, u) ==> ReplacementFits(repos, u)
    ensures RoutesCompatible(OpenFor(Committed(repos, u), t)) && Agree(OpenFor(Committed(repos, u), t))
  {
    var group := OpenFor(Committed(repos, u), t);
    PairwiseFits(OpenFor(repos, t));
    forall p, q | p in group && q in group ensures Fits(p, q) {
      OpenAfter(repos, u, t, p);
      OpenAfter(repos, u, t, q);
      if Remains(repos, u, p) {
        RemainsWasOpen(repos, u, p);
      }
      if Remains(repos, u, q) {
        RemainsWasOpen(repos, u, q);
      }
    }
    PairwiseFits(group);
  }

  /** Two files for one provider, one of them stored under a file name that is not its own. */
  function Misfiled(): Repos {
    var f := Interface("f", "one");
    map["app" := Repo(map["x.file" := Plain("x", "lib", [f], ""), "y" := Plain("y", "lib", [f], "")], {}, None)]
  }

  function Rewording(): Update { Update("app", "x.file", Plain("x", "lib", [Interface("f", "two")], "")) }

  lemma MisfiledHolds(d: Key, r: Requirement)
    requires HeldBy(Misfiled(), d, r)
    ensures r.route == Auto && r.interfaces == [Interface("f", "one")] && r.name != "x.file"
  {
  }

  lemma AlikeAgree(group: iset<Requirement>, f: Interface)
    requires forall r :: r in group ==> r.route == Auto && r.interfaces == [f]
    ensures RoutesCompatible(group) && Agree(group)
  {
  }

  lemma MisfiledPassesTheChecks()
    ensures Found(Misfiled(), Rewording()) && Admissible(Misfiled(), Rewording(), Quiet())
    ensures AllGroupsAgree(Misfiled())
  {
    forall d, r | HeldBy(Misfiled(), d, r)
      ensures r.route == Auto && r.interfaces == [Interface("f", "one")] && Substituted(Rewording(), d, r) == r
    {
      MisfiledHolds(d, r);
    }
    forall t
      ensures RoutesCompatible(OpenFor(Misfiled(), t)) && Agree(OpenFor(Misfiled(), t))
      ensures GroupAgrees(Misfiled(), Rewording(), t)
    {
      AlikeAgree(OpenFor(Misfiled(), t), Interface("f", "one"));
      AlikeAgree(Group(Misfiled(), Rewording(), t), Interface("f", "one"));
    }
  }

  lemma MisfiledConflictsAfter()
    ensures Found(Misfiled(), Rewording()) && !NameTaken(Misfiled(), Rewording())
    ensures !AllGroupsAgree(Committed(Misfiled(), Rewording()))
  {
    var after := Committed(Misfiled(), Rewording());
    var files := after["app"].requirements;
    var x, y := files["x"], files["y"];
    assert HeldBy(after, "app", x) && HeldBy(after, "app", y);
    assert x in OpenFor(after, "lib") && y in OpenFor(after, "lib");
    assert x.interfaces == [Interface("f", "two")] && y.interfaces == [Interface("f", "one")];
    assert Interface("f", "two") in x.interfaces && Interface("f", "one") in y.interfaces;
    assert Offers(OpenFor(after, "lib"), Interface("f", "two")) && Offers(OpenFor(after, "lib"), Interface("f", "one"));
  }

  /** A file whose stored name is another one escapes the substitution, and with it the conflict check. */
  lemma UnmatchedNameHidesAConflict() returns (repos: Repos, u: Update)
    ensures Found(repos, u) && Admissible(repos, u, Quiet()) && !NameTaken(repos, u)
    ensures AllGroupsAgree(repos) && !AllGroupsAgree(Committed(repos, u))
  {
    repos, u := Misfiled(), Rewording();
    MisfiledPassesTheChecks();
    MisfiledConflictsAfter();
  }
}
