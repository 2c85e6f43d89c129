/** When an AgentType registry is acceptable, what each type may do, and why derived test types keep it so. */
module AgentTypeLaws {
  import opened Ordering
  import opened AgentTypes
  import opened Strings

  /** The inheritance chain from a type up to one without a base. */
  ghost predicate IsChain(byType: map<string, Spec>, chain: seq<string>, start: string)
    decreases |chain|
  {
    if start == "" then chain == []
    else chain != [] && chain[0] == start && start in byType && IsChain(byType, chain[1..], Base(byType[start]))
  }

  /** The union of the aliases along a chain. */
  ghost function ChainAliases(byType: map<string, Spec>, chain: seq<string>): set<string>
    requires forall i :: 0 <= i < |chain| ==> chain[i] in byType
  {
    if chain == [] then {} else AliasSet(byType[chain[0]]) + ChainAliases(byType, chain[1..])
  }

  lemma {:induction false} ChainRegistered(byType: map<string, Spec>, chain: seq<string>, start: string)
    requires IsChain(byType, chain, start)
    ensures forall i :: 0 <= i < |chain| ==> chain[i] in byType && chain[i] != ""
    decreases |chain|
  {
    if chain != [] {
      ChainRegistered(byType, chain[1..], Base(byType[start]));
    }
  }

  lemma {:induction false} ChainUnique(byType: map<string, Spec>, a: seq<string>, b: seq<string>, start: string)
    requires IsChain(byType, a, start) && IsChain(byType, b, start)
    ensures a == b
    decreases |a|
  {
    if start != "" {
      ChainUnique(byType, a[1..], b[1..], Base(byType[start]));
      assert a == [a[0]] + a[1..] && b == [b[0]] + b[1..];
    }
  }

  lemma {:induction false} ChainSuffix(byType: map<string, Spec>, chain: seq<string>, start: string, i: nat)
    requires IsChain(byType, chain, start) && i < |chain|
    ensures IsChain(byType, chain[i..], chain[i])
    decreases |chain|
  {
    if i > 0 {
      ChainSuffix(byType, chain[1..], Base(byType[start]), i - 1);
      assert chain[1..][i - 1..] == chain[i..];
    }
  }

  /** A chain that ends repeats no type: this is why the cycle check never rejects one. */
  lemma ChainDistinct(byType: map<string, Spec>, chain: seq<string>, start: string)
    requires IsChain(byType, chain, start)
    ensures Distinct(chain)
  {
    forall i, j | 0 <= i < j < |chain| ensures chain[i] != chain[j] {
      ChainSuffix(byType, chain, start, i);
      ChainSuffix(byType, chain, start, j);
      if chain[i] == chain[j] {
        ChainUnique(byType, chain[i..], chain[j..], chain[i]);
      }
    }
  }

  lemma {:induction false} WalkAlongChain(byType: map<string, Spec>, chain: seq<string>, start: string,
                                          visiting: set<string>, names: set<string>)
    requires IsChain(byType, chain, start)
    requires forall i :: 0 <= i < |chain| ==> chain[i] in byType && chain[i] !in visiting
    ensures Permissions(byType, start, visiting, names) == Ok(names + ChainAliases(byType, chain))
    ensures ChainError(byType, start, visiting) == None
    decreases |chain|
  {
    if chain == [] {
      assert names + {} == names;
    } else {
      ChainDistinct(byType, chain, start);
      var rest := chain[1..];
      forall i | 0 <= i < |rest| ensures rest[i] in byType && rest[i] !in visiting + {start} {
        assert rest[i] == chain[i + 1] && chain[0] != chain[i + 1];
      }
      WalkAlongChain(byType, rest, Base(byType[start]), visiting + {start}, names + AliasSet(byType[start]));
      assert names + AliasSet(byType[start]) + ChainAliases(byType, rest) == names + ChainAliases(byType, chain);
    }
  }

  lemma {:induction false} WalkFindsChain(byType: map<string, Spec>, start: string, visiting: set<string>)
    returns (chain: seq<string>)
    requires ChainError(byType, start, visiting) == None
    ensures IsChain(byType, chain, start)
    decreases |byType.Keys - visiting|
  {
    if start == "" {
      chain := [];
    } else {
      FewerUnvisited(byType.Keys, visiting, start);
      var rest := WalkFindsChain(byType, Base(byType[start]), visiting + {start});
      chain := [start] + rest;
    }
  }

  lemma {:induction false} WalksAgree(byType: map<string, Spec>, start: string, visiting: set<string>,
                                      names: set<string>)
    ensures Permissions(byType, start, visiting, names).Ok? <==> ChainError(byType, start, visiting) == None
    ensures Permissions(byType, start, visiting, names).Err? ==>
              ChainError(byType, start, visiting) == Some(Permissions(byType, start, visiting, names).error)
    decreases |byType.Keys - visiting|
  {
    if start != "" && start !in visiting && start in byType {
      FewerUnvisited(byType.Keys, visiting, start);
      WalksAgree(byType, Base(byType[start]), visiting + {start}, names + AliasSet(byType[start]));
    }
  }

  /** And then it returns the union of the aliases along that chain. */
  lemma ChainGivesNames(specs: seq<Spec>, agentType: string, chain: seq<string>)
    requires IsChain(ByType(specs), chain, Strip(agentType))
    ensures forall i :: 0 <= i < |chain| ==> chain[i] in ByType(specs)
    ensures PermissionNames(specs, agentType) == Ok(ChainAliases(ByType(specs), chain))
  {
    var byType, start := ByType(specs), Strip(agentType);
    ChainRegistered(byType, chain, start);
    WalkAlongChain(byType, chain, start, {}, {});
    assert {} + ChainAliases(byType, chain) == ChainAliases(byType, chain);
  }

  lemma NamesGiveChain(specs: seq<Spec>, agentType: string) returns (chain: seq<string>)
    requires PermissionNames(specs, agentType).Ok?
    ensures IsChain(ByType(specs), chain, Strip(agentType))
  {
    WalksAgree(ByType(specs), Strip(agentType), {}, {});
    chain := WalkFindsChain(ByType(specs), Strip(agentType), {});
  }

  ghost predicate ChainEnds(byType: map<string, Spec>, start: string) {
    exists chain :: IsChain(byType, chain, start)
  }

  /** The permission walk succeeds exactly for a type whose inheritance chain ends. */
  lemma WalkSucceedsIffChainEnds(specs: seq<Spec>, agentType: string)
    ensures PermissionNames(specs, agentType).Ok? <==> ChainEnds(ByType(specs), Strip(agentType))
  {
    var byType, start := ByType(specs), Strip(agentType);
    if PermissionNames(specs, agentType).Ok? {
      var chain := NamesGiveChain(specs, agentType);
      assert IsChain(byType, chain, start);
    }
    if ChainEnds(byType, start) {
      var chain :| IsChain(byType, chain, start);
      ChainGivesNames(specs, agentType, chain);
    }
  }

  /** A registry without duplicate names is accepted exactly when the permission walk succeeds for every type. */
  lemma AcceptedIffEveryWalkSucceeds(specs: seq<Spec>)
    requires DistinctTypes(specs) && forall s :: s in specs ==> ValidSpec(s)
    ensures Accepted(specs) <==> forall s :: s in specs ==> PermissionNames(specs, s.agentType).Ok?
  {
    forall s | s in specs
      ensures PermissionNames(specs, s.agentType).Ok? <==> ChainError(ByType(specs), s.agentType, {}) == None
    {
      WalksAgree(ByType(specs), s.agentType, {}, {});
    }
  }

  lemma {:induction false} ByTypeFinds(specs: seq<Spec>)
    ensures forall a :: a in ByType(specs) ==> ByType(specs)[a] in specs && ByType(specs)[a].agentType == a
    ensures forall s :: s in specs ==> s.agentType in ByType(specs)
    ensures DistinctTypes(specs) ==> forall s :: s in specs ==> ByType(specs)[s.agentType] == s
  {
    if specs != [] {
      var n := |specs| - 1;
      ByTypeFinds(specs[..n]);
      assert specs == specs[..n] + [specs[n]];
    }
  }

  /** In an accepted registry an extending type has its own aliases and exactly everything its base has. */
  lemma TypeHasItsBasesNames(specs: seq<Spec>, s: Spec)
    requires Accepted(specs) && s in specs && (forall t :: t in specs ==> ValidSpec(t)) && s.extendsAgentType.Some?
    ensures var base := s.extendsAgentType.value;
      && base in ByType(specs)
      && PermissionNames(specs, base).Ok? && PermissionNames(specs, s.agentType).Ok?
      && PermissionNames(specs, s.agentType).value == AliasSet(s) + PermissionNames(specs, base).value
  {
    var byType, base := ByType(specs), s.extendsAgentType.value;
    ByTypeFinds(specs);
    var chain := WalkFindsChain(byType, s.agentType, {});
    assert IsChain(byType, chain[1..], base);
    ChainGivesNames(specs, s.agentType, chain);
    ChainGivesNames(specs, base, chain[1..]);
  }

  // ----- controlled test types: `agents/testing.py` -----

  predicate EndsWith(s: string, suffix: string) {
    |suffix| <= |s| && s[|s| - |suffix|..] == suffix
  }

  function RemoveSuffix(s: string, suffix: string): string {
    if EndsWith(s, suffix) then s[..|s| - |suffix|] else s
  }

  /** `controlled_test_agent_type_name` */
  function ControlledName(base: string): string {
    RemoveSuffix(Strip(base), "Agent") + "ControlledTestAgent"
  }

  /** A last "Agent" of the stripped base name gives way to the ending of derived names. */
  lemma ControlledNameSpelled(base: string, stem: string)
    ensures Strip(base) == stem + "Agent" ==> ControlledName(base) == stem + "ControlledTestAgent"
    ensures (forall x :: Strip(base) != x + "Agent") ==> ControlledName(base) == Strip(base) + "ControlledTestAgent"
  {
    var s := Strip(base);
    if EndsWith(s, "Agent") {
      assert s == s[..|s| - 5] + "Agent";
    }
    if s == stem + "Agent" {
      assert s[|s| - 5..] == "Agent" && s[..|s| - 5] == stem;
    }
  }

  /** A derived name is a valid name and never the base's own. */
  lemma ControlledNameIsNew(base: string)
    requires IsName(base)
    ensures IsName(ControlledName(base)) && ControlledName(base) != base
  {
  }

  /** `get_agent_type_spec`: the first spec of that name. */
  function FindSpec(specs: seq<Spec>, name: string): Option<Spec> {
    if specs == [] then None else if specs[0].agentType == name then Some(specs[0]) else FindSpec(specs[1..], name)
  }

  /** `derive_agent_type_spec` without overrides. */
  function Derive(specs: seq<Spec>, base: string, agentType: string): Option<Spec> {
    match FindSpec(specs, Strip(base))
    case None => None
    case Some(b) => Validated(b.(agentType := agentType, extendsAgentType := Some(b.agentType)))
  }

  lemma {:induction false} FindSpecDistinct(specs: seq<Spec>, s: Spec)
    requires DistinctTypes(specs) && s in specs
    ensures FindSpec(specs, s.agentType) == Some(s)
  {
    if specs[0] != s {
      assert specs == [specs[0]] + specs[1..];
      FindSpecDistinct(specs[1..], s);
    }
  }

  /** A new spec that is a root type's but for its name and for extending that type. */
  ghost predicate IsDerived(specs: seq<Spec>, d: Spec) {
    && ValidSpec(d) && d.agentType !in ByType(specs)
    && d.extendsAgentType.Some? && d.extendsAgentType.value in ByType(specs)
    && var b := ByType(specs)[d.extendsAgentType.value];
    && b.extendsAgentType == None && d.agentType == ControlledName(b.agentType)
    && d == b.(agentType := d.agentType, extendsAgentType := Some(b.agentType))
  }

  /** What the derivation loop promises about the specs derived so far. */
  ghost predicate DerivedFrom(specs: seq<Spec>, derived: seq<Spec>) {
    DistinctTypes(derived) && forall d :: d in derived ==> IsDerived(specs, d)
  }

  lemma DerivesOne(specs: seq<Spec>, b: Spec)
    requires DistinctTypes(specs) && b in specs && ValidSpec(b) && b.extendsAgentType == None
    ensures var d := b.(agentType := ControlledName(b.agentType), extendsAgentType := Some(b.agentType));
      ValidSpec(d) && Derive(specs, b.agentType, ControlledName(b.agentType)) == Some(d)
  {
    FindSpecDistinct(specs, b);
    ControlledNameIsNew(b.agentType);
    ValidatedIsValid(b.(agentType := ControlledName(b.agentType), extendsAgentType := Some(b.agentType)));
  }

  /** The names the derivation loop counts as taken. */
  ghost predicate Taken(specs: seq<Spec>, derived: seq<Spec>, existing: set<string>) {
    forall a :: a in existing <==> a in ByType(specs) || exists d :: d in derived && d.agentType == a
  }

  /** A base is served once it extends another type itself or its derived name is taken. */
  predicate Served(specs: seq<Spec>, target: string, existing: set<string>) {
    Strip(target) in ByType(specs)
    && var b := ByType(specs)[Strip(target)];
    b.extendsAgentType.Some? || ControlledName(b.agentType) in existing
  }

  /** Nothing is derived but from a target. */
  ghost predicate OnlyFrom(targets: seq<string>, derived: seq<Spec>) {
    forall d :: d in derived ==> exists i :: 0 <= i < |targets| && d.extendsAgentType == Some(Strip(targets[i]))
  }

  /** The targets handled so far, and no other base, are served by the specs derived so far. */
  ghost predicate Progress(specs: seq<Spec>, targets: seq<string>, derived: seq<Spec>, existing: set<string>) {
    && DerivedFrom(specs, derived) && Taken(specs, derived, existing) && OnlyFrom(targets, derived)
    && forall i :: 0 <= i < |targets| ==> Served(specs, targets[i], existing)
  }

  lemma SkipsTarget(specs: seq<Spec>, targets: seq<string>, target: string, derived: seq<Spec>, existing: set<string>)
    requires Progress(specs, targets, derived, existing) && Served(specs, target, existing)
    ensures Progress(specs, targets + [target], derived, existing)
  {
    StillOnlyFrom(targets, target, derived);
  }

  lemma StillOnlyFrom(targets: seq<string>, target: string, derived: seq<Spec>)
    requires OnlyFrom(targets, derived)
    ensures OnlyFrom(targets + [target], derived)
  {
    forall d | d in derived
      ensures exists i :: 0 <= i < |targets + [target]| && d.extendsAgentType == Some(Strip((targets + [target])[i]))
    {
      var i :| 0 <= i < |targets| && d.extendsAgentType == Some(Strip(targets[i]));
      assert (targets + [target])[i] == targets[i];
    }
  }

  lemma DerivedGrows(specs: seq<Spec>, derived: seq<Spec>, existing: set<string>, b: Spec, d: Spec)
    requires DistinctTypes(specs) && b in specs && ValidSpec(b) && b.extendsAgentType == None
    requires DerivedFrom(specs, derived) && Taken(specs, derived, existing) && ControlledName(b.agentType) !in existing
    requires d == b.(agentType := ControlledName(b.agentType), extendsAgentType := Some(b.agentType)) && ValidSpec(d)
    ensures DerivedFrom(specs, derived + [d])
  {
    ByTypeFinds(specs);
    forall i | 0 <= i < |derived| ensures derived[i].agentType != d.agentType {
      assert derived[i] in derived;
    }
  }

  lemma TakenGrows(specs: seq<Spec>, derived: seq<Spec>, existing: set<string>, d: Spec)
    requires Taken(specs, derived, existing)
    ensures Taken(specs, derived + [d], existing + {d.agentType})
  {
  }

  lemma DerivesTarget(specs: seq<Spec>, targets: seq<string>, target: string, derived: seq<Spec>, existing: set<string>)
    requires DistinctTypes(specs) && forall s :: s in specs ==> ValidSpec(s)
    requires Progress(specs, targets, derived, existing)
    requires Strip(target) in ByType(specs) && !Served(specs, target, existing)
    ensures var b := ByType(specs)[Strip(target)];
      var d := Derive(specs, b.agentType, ControlledName(b.agentType));
      d.Some? && d.value.agentType == ControlledName(b.agentType)
      && Progress(specs, targets + [target], derived + [d.value], existing + {d.value.agentType})
  {
    ByTypeFinds(specs);
    var b := ByType(specs)[Strip(target)];
    DerivesOne(specs, b);
    var d := b.(agentType := ControlledName(b.agentType), extendsAgentType := Some(b.agentType));
    DerivedGrows(specs, derived, existing, b, d);
    TakenGrows(specs, derived, existing, d);
    OneMoreFrom(targets, target, derived, d);
  }

  lemma OneMoreFrom(targets: seq<string>, target: string, derived: seq<Spec>, d: Spec)
    requires OnlyFrom(targets, derived) && d.extendsAgentType == Some(Strip(target))
    ensures OnlyFrom(targets + [target], derived + [d])
  {
    StillOnlyFrom(targets, target, derived);
    assert (targets + [target])[|targets|] == target;
    assert forall x :: x in derived + [d] <==> x in derived || x == d;
  }

  /** `build_controlled_test_agent_type_specs`; the error is a target that names no spec. */
  method BuildControlledSpecs(specs: seq<Spec>, targets: seq<string>)
    returns (result: Result<seq<Spec>, string>, ghost existing: set<string>)
    requires DistinctTypes(specs) && forall s :: s in specs ==> ValidSpec(s)
    ensures result.Ok? <==> forall i :: 0 <= i < |targets| ==> Strip(targets[i]) in ByType(specs)
    ensures result.Ok? ==> Progress(specs, targets, result.value, existing)
  {
    var byType := ByType(specs);
    var derivedSpecs: seq<Spec> := [];
    var taken := byType.Keys;
    for i := 0 to |targets|
      invariant Progress(specs, targets[..i], derivedSpecs, taken)
    {
      assert targets[..i + 1] == targets[..i] + [targets[i]];
      if Strip(targets[i]) !in byType {
        return Err(targets[i]), taken;
      }
      var base := byType[Strip(targets[i])];
      var agentType := ControlledName(base.agentType);
      if base.extendsAgentType.Some? || agentType in taken {
        SkipsTarget(specs, targets[..i], targets[i], derivedSpecs, taken);
        continue;
      }
      DerivesTarget(specs, targets[..i], targets[i], derivedSpecs, taken);
      derivedSpecs := derivedSpecs + [Derive(specs, base.agentType, agentType).value];
      taken := taken + {agentType};
    }
    assert targets[..|targets|] == targets;
    assert forall i :: 0 <= i < |targets| ==> Served(specs, targets[i], taken);
    return Ok(derivedSpecs), taken;
  }

  lemma {:induction false} ByTypeAppend(specs: seq<Spec>, derived: seq<Spec>)
    requires forall d :: d in derived ==> d.agentType !in ByType(specs)
    ensures forall a :: a in ByType(specs) ==>
              a in ByType(specs + derived) && ByType(specs + derived)[a] == ByType(specs)[a]
    decreases |derived|
  {
    if derived == [] {
      assert specs + derived == specs;
    } else {
      var n := |derived| - 1;
      assert (specs + derived)[..|specs + derived| - 1] == specs + derived[..n];
      assert derived[n] in derived;
      forall d | d in derived[..n] ensures d.agentType !in ByType(specs) {
        assert d in derived;
      }
      ByTypeAppend(specs, derived[..n]);
    }
  }

  lemma {:induction false} ChainKept(small: map<string, Spec>, large: map<string, Spec>, chain: seq<string>,
                                     start: string)
    requires IsChain(small, chain, start)
    requires forall a :: a in small ==> a in large && large[a] == small[a]
    ensures IsChain(large, chain, start)
    ensures forall i :: 0 <= i < |chain| ==> chain[i] in small
    ensures ChainAliases(large, chain) == ChainAliases(small, chain)
    decreases |chain|
  {
    if chain != [] {
      ChainKept(small, large, chain[1..], Base(small[start]));
    }
  }

  lemma AppendedDistinct(specs: seq<Spec>, derived: seq<Spec>)
    requires DistinctTypes(specs) && DerivedFrom(specs, derived)
    ensures DistinctTypes(specs + derived)
  {
    ByTypeFinds(specs);
    var all := specs + derived;
    forall i, j | 0 <= i < j < |all| ensures all[i].agentType != all[j].agentType {
      if i < |specs| <= j {
        assert specs[i] in specs && derived[j - |specs|] in derived;
      }
    }
  }

  /** Every old type keeps its permission set. */
  lemma OldTypesKeepNames(specs: seq<Spec>, derived: seq<Spec>, s: Spec)
    requires Accepted(specs) && (forall t :: t in specs ==> ValidSpec(t)) && DerivedFrom(specs, derived) && s in specs
    ensures PermissionNames(specs + derived, s.agentType) == PermissionNames(specs, s.agentType)
    ensures PermissionNames(specs, s.agentType).Ok?
  {
    ByTypeAppend(specs, derived);
    var chain := WalkFindsChain(ByType(specs), s.agentType, {});
    ChainKept(ByType(specs), ByType(specs + derived), chain, s.agentType);
    ChainGivesNames(specs, s.agentType, chain);
    ChainGivesNames(specs + derived, s.agentType, chain);
  }

  lemma RootNames(specs: seq<Spec>, b: Spec)
    requires b.agentType in ByType(specs) && ByType(specs)[b.agentType] == b
    requires IsName(b.agentType) && b.extendsAgentType == None
    ensures IsChain(ByType(specs), [b.agentType], b.agentType) && PermissionNames(specs, b.agentType) == Ok(AliasSet(b))
  {
    var base := [b.agentType];
    assert base[1..] == [] && IsChain(ByType(specs), [], "");
    ChainGivesNames(specs, b.agentType, base);
    assert ChainAliases(ByType(specs), base) == AliasSet(b) + ChainAliases(ByType(specs), base[1..]);
    assert AliasSet(b) + {} == AliasSet(b);
  }

  lemma ExtendedNames(specs: seq<Spec>, d: Spec, b: Spec)
    requires b.agentType in ByType(specs) && ByType(specs)[b.agentType] == b
    requires IsName(b.agentType) && b.extendsAgentType == None
    requires d.agentType in ByType(specs) && ByType(specs)[d.agentType] == d && IsName(d.agentType)
    requires d.extendsAgentType == Some(b.agentType)
    ensures PermissionNames(specs, d.agentType) == Ok(AliasSet(d) + AliasSet(b))
  {
    RootNames(specs, b);
    ChainGivesNames(specs, b.agentType, [b.agentType]);
    var chain := [d.agentType] + [b.agentType];
    assert chain[1..] == [b.agentType];
    ChainGivesNames(specs, d.agentType, chain);
    assert ChainAliases(ByType(specs), chain) == AliasSet(d) + ChainAliases(ByType(specs), [b.agentType]);
  }

  /** Each derived type has its own name and exactly its base's set. */
  lemma DerivedTypeNames(specs: seq<Spec>, derived: seq<Spec>, d: Spec)
    requires Accepted(specs) && (forall t :: t in specs ==> ValidSpec(t)) && DerivedFrom(specs, derived) && d in derived
    ensures d.extendsAgentType.Some? && PermissionNames(specs, d.extendsAgentType.value).Ok?
    ensures PermissionNames(specs + derived, d.agentType)
              == Ok({d.agentType} + PermissionNames(specs, d.extendsAgentType.value).value)
  {
    var all := specs + derived;
    ByTypeFinds(specs);
    var b := ByType(specs)[d.extendsAgentType.value];
    AppendedDistinct(specs, derived);
    ByTypeFinds(all);
    assert d in all && b in all;
    RootNames(specs, b);
    ExtendedNames(all, d, b);
    AliasesOfValid(d);
    AliasesOfValid(b);
    assert AliasSet(d) + AliasSet(b) == {d.agentType} + AliasSet(b);
  }

  /** Appending all derived test specs to an accepted registry gives an accepted registry. */
  lemma DerivedRegistryAccepted(specs: seq<Spec>, derived: seq<Spec>)
    requires Accepted(specs) && (forall t :: t in specs ==> ValidSpec(t)) && DerivedFrom(specs, derived)
    ensures Accepted(specs + derived)
  {
    var all := specs + derived;
    AppendedDistinct(specs, derived);
    forall s | s in all ensures ValidSpec(s) && PermissionNames(all, s.agentType).Ok? {
      if s in specs {
        OldTypesKeepNames(specs, derived, s);
      } else {
        assert s in derived;
        DerivedTypeNames(specs, derived, s);
      }
    }
    AcceptedIffEveryWalkSucceeds(all);
  }
}
