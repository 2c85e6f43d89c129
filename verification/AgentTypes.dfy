/** AgentType specs and their inheritance: `agents/models.py` and the walks of `agents/registry.py`. */
module AgentTypes {
  import opened Ordering
  import opened Strings

  predicate IsName(s: string) {
    s != "" && IsStripped(s)
  }

  /** `_dedupe_list` and the loop of `agent_type_aliases`: stripped, non-empty, first occurrences. */
  function Dedupe(values: seq<string>): seq<string> {
    if values == [] then []
    else
      var kept, value := Dedupe(values[..|values| - 1]), Strip(values[|values| - 1]);
      if value == "" || value in kept then kept else kept + [value]
  }

  method DedupeList(values: seq<string>) returns (result: seq<string>)
    ensures result == Dedupe(values)
  {
    result := [];
    var seen: set<string> := {};
    for i := 0 to |values|
      invariant result == Dedupe(values[..i])
      invariant forall v :: v in seen <==> v in result
    {
      assert values[..i + 1][..i] == values[..i];
      var value := Strip(values[i]);
      if value == "" || value in seen {
        continue;
      }
      seen := seen + {value};
      result := result + [value];
    }
    assert values[..|values|] == values;
  }

  ghost predicate IsDeduped(values: seq<string>) {
    Distinct(values) && forall i :: 0 <= i < |values| ==> IsName(values[i])
  }

  ghost predicate Occurs(values: seq<string>, v: string) {
    exists i :: 0 <= i < |values| && Strip(values[i]) == v
  }

  lemma OccursLast(values: seq<string>, v: string)
    requires values != []
    ensures Occurs(values, v) <==> Occurs(values[..|values| - 1], v) || Strip(values[|values| - 1]) == v
  {
  }

  /** A deduped list has no blank and no repeated name, and keeps exactly the stripped non-blank values. */
  lemma {:induction false} DedupeKeepsNames(values: seq<string>)
    ensures IsDeduped(Dedupe(values))
    ensures forall v :: v in Dedupe(values) <==> v != "" && Occurs(values, v)
  {
    if values != [] {
      DedupeKeepsNames(values[..|values| - 1]);
      forall v ensures v in Dedupe(values) <==> v != "" && Occurs(values, v) {
        OccursLast(values, v);
      }
    }
  }

  /** And keeps them in the order in which they first occur. */
  lemma {:induction false} DedupeKeepsOrder(values: seq<string>, i: nat, j: nat)
    requires i < j < |Dedupe(values)|
    ensures exists p :: 0 <= p < |values| && Strip(values[p]) == Dedupe(values)[i]
              && forall q :: 0 <= q <= p ==> Strip(values[q]) != Dedupe(values)[j]
  {
    var n := |values| - 1;
    var before := values[..n];
    var kept := Dedupe(before);
    DedupeKeepsNames(before);
    if j < |kept| {
      DedupeKeepsOrder(before, i, j);
      var p :| 0 <= p < |before| && Strip(before[p]) == kept[i]
               && forall q :: 0 <= q <= p ==> Strip(before[q]) != kept[j];
      forall q | 0 <= q <= p ensures Strip(values[q]) != kept[j] {
        assert values[q] == before[q];
      }
    } else {
      assert kept[i] in kept && Occurs(before, kept[i]);
      var p :| 0 <= p < |before| && Strip(before[p]) == kept[i];
      forall q | 0 <= q <= p ensures Strip(values[q]) != Dedupe(values)[j] {
        assert values[q] == before[q] && Occurs(before, Strip(before[q]));
      }
    }
  }

  /** Validating validated values again changes nothing. */
  lemma {:induction false} DedupeIdempotent(values: seq<string>)
    requires IsDeduped(values)
    ensures Dedupe(values) == values
  {
    if values != [] {
      var n := |values| - 1;
      DedupeIdempotent(values[..n]);
      assert values == values[..n] + [values[n]];
    }
  }

  // ----- specs -----

  datatype Spec = Spec(
    agentType: string, role: string, instructionFragmentKeys: seq<string>, skillKeys: seq<string>,
    applicationToolViewKey: string, submitToolViewKey: string, toolViewAgentAliases: seq<string>,
    extendsAgentType: Option<string>)

  /** Construction with its field and model validators; None stands for the validation error. */
  function Validated(data: Spec): Option<Spec> {
    var base := if data.extendsAgentType.Some? then Strip(data.extendsAgentType.value) else "";
    var spec := Spec(
      Strip(data.agentType), data.role, Dedupe(data.instructionFragmentKeys), Dedupe(data.skillKeys),
      Strip(data.applicationToolViewKey), Strip(data.submitToolViewKey), Dedupe(data.toolViewAgentAliases),
      if base != "" then Some(base) else None);
    if spec.agentType == "" || spec.applicationToolViewKey == "" || spec.submitToolViewKey == "" then None
    else if spec.extendsAgentType == Some(spec.agentType) then None
    else Some(spec)
  }

  ghost predicate ValidSpec(s: Spec) {
    && IsName(s.agentType) && IsName(s.applicationToolViewKey) && IsName(s.submitToolViewKey)
    && IsDeduped(s.instructionFragmentKeys) && IsDeduped(s.skillKeys) && IsDeduped(s.toolViewAgentAliases)
    && (s.extendsAgentType.Some? ==> IsName(s.extendsAgentType.value) && s.extendsAgentType.value != s.agentType)
  }

  /** Construction accepts exactly data it can normalise, and a valid spec is left as it is. */
  lemma ValidatedIsValid(data: Spec)
    ensures Validated(data).Some? ==> ValidSpec(Validated(data).value)
    ensures ValidSpec(data) ==> Validated(data) == Some(data)
  {
    DedupeKeepsNames(data.instructionFragmentKeys);
    DedupeKeepsNames(data.skillKeys);
    DedupeKeepsNames(data.toolViewAgentAliases);
    if ValidSpec(data) {
      DedupeIdempotent(data.instructionFragmentKeys);
      DedupeIdempotent(data.skillKeys);
      DedupeIdempotent(data.toolViewAgentAliases);
    }
  }

  /** `agent_type_aliases`, as the set the callers build from it. */
  function AliasSet(s: Spec): set<string> {
    set a | a in Dedupe([s.agentType] + s.toolViewAgentAliases)
  }

  lemma AliasesOfValid(s: Spec)
    requires ValidSpec(s)
    ensures AliasSet(s) == {s.agentType} + set a | a in s.toolViewAgentAliases
  {
    var values := [s.agentType] + s.toolViewAgentAliases;
    DedupeKeepsNames(values);
    forall a ensures a in AliasSet(s) <==> a == s.agentType || a in s.toolViewAgentAliases {
      assert Strip(values[0]) == s.agentType;
      forall i | 0 <= i < |s.toolViewAgentAliases| ensures Strip(values[i + 1]) == s.toolViewAgentAliases[i] {
      }
      if a != s.agentType && Occurs(values, a) {
        var i :| 0 <= i < |values| && Strip(values[i]) == a;
        assert values[i] == s.toolViewAgentAliases[i - 1];
      }
    }
  }

  // ----- the inheritance walks -----

  datatype WalkError = Cycle(name: string) | Unknown(name: string)

  datatype Result<+T, +E> = Ok(value: T) | Err(error: E)

  /** The specs by name; of several with one name the last counts. */
  function ByType(specs: seq<Spec>): map<string, Spec> {
    if specs == [] then map[] else ByType(specs[..|specs| - 1])[specs[|specs| - 1].agentType := specs[|specs| - 1]]
  }

  /** The type a spec extends, empty if it extends none. */
  function Base(s: Spec): string {
    if s.extendsAgentType.Some? then s.extendsAgentType.value else ""
  }

  lemma FewerUnvisited<T>(all: set<T>, visited: set<T>, x: T)
    requires x in all && x !in visited
    ensures |all - (visited + {x})| < |all - visited|
  {
    assert all - visited == (all - (visited + {x})) + {x};
  }

  /** The permission walk of `agent_type_permission_names`; the unvisited registered types bound it. */
  function Permissions(byType: map<string, Spec>, current: string, visiting: set<string>, names: set<string>)
    : Result<set<string>, WalkError>
    decreases |byType.Keys - visiting|
  {
    if current == "" then Ok(names)
    else if current in visiting then Err(Cycle(current))
    else if current !in byType then Err(Unknown(current))
    else
      FewerUnvisited(byType.Keys, visiting, current);
      Permissions(byType, Base(byType[current]), visiting + {current}, names + AliasSet(byType[current]))
  }

  /** The acceptance walk of `_resolve_agent_type_specs`. */
  function ChainError(byType: map<string, Spec>, current: string, visiting: set<string>): Option<WalkError>
    decreases |byType.Keys - visiting|
  {
    if current == "" then None
    else if current in visiting then Some(Cycle(current))
    else if current !in byType then Some(Unknown(current))
    else
      FewerUnvisited(byType.Keys, visiting, current);
      ChainError(byType, Base(byType[current]), visiting + {current})
  }

  function PermissionNames(specs: seq<Spec>, agentType: string): Result<set<string>, WalkError> {
    Permissions(ByType(specs), Strip(agentType), {}, {})
  }

  /** `agent_type_permission_names` */
  method AgentTypePermissionNames(agentType: string, specs: seq<Spec>) returns (result: Result<set<string>, WalkError>)
    ensures result == PermissionNames(specs, agentType)
  {
    var byType := ByType(specs);
    var names: set<string>, visiting: set<string> := {}, {};
    var current := Strip(agentType);
    while current != ""
      invariant Permissions(byType, current, visiting, names) == PermissionNames(specs, agentType)
      decreases |byType.Keys - visiting|
    {
      if current in visiting {
        return Err(Cycle(current));
      }
      if current !in byType {
        return Err(Unknown(current));
      }
      FewerUnvisited(byType.Keys, visiting, current);
      visiting := visiting + {current};
      var spec := byType[current];
      names := names + AliasSet(spec);
      current := Base(spec);
    }
    return Ok(names);
  }

  ghost predicate DistinctTypes(specs: seq<Spec>) {
    forall i, j :: 0 <= i < j < |specs| ==> specs[i].agentType != specs[j].agentType
  }

  /** The registry check succeeds. */
  ghost predicate Accepted(specs: seq<Spec>) {
    DistinctTypes(specs) && forall s :: s in specs ==> ChainError(ByType(specs), s.agentType, {}) == None
  }

  datatype RegistryError = Duplicate(agentType: string) | BadChain(error: WalkError)

  /** `_resolve_agent_type_specs` over the registered specs. */
  method ResolveSpecs(specs: seq<Spec>) returns (result: Result<seq<Spec>, RegistryError>)
    ensures result.Ok? <==> Accepted(specs)
    ensures result.Ok? ==> result.value == specs
    ensures result.Err? && result.error.Duplicate? <==> !DistinctTypes(specs)
    ensures result.Err? && result.error.BadChain? ==>
              exists s :: s in specs && ChainError(ByType(specs), s.agentType, {}) == Some(result.error.error)
  {
    var seen: set<string> := {};
    for i := 0 to |specs|
      invariant forall k, j :: 0 <= k < j < i ==> specs[k].agentType != specs[j].agentType
      invariant forall a :: a in seen <==> exists k :: 0 <= k < i && specs[k].agentType == a
    {
      if specs[i].agentType in seen {
        return Err(Duplicate(specs[i].agentType));
      }
      seen := seen + {specs[i].agentType};
    }
    var byType := ByType(specs);
    for i := 0 to |specs|
      invariant forall k :: 0 <= k < i ==> ChainError(byType, specs[k].agentType, {}) == None
    {
      var error := WalkChain(byType, specs[i].agentType);
      if error.Some? {
        assert specs[i] in specs;
        return Err(BadChain(error.value));
      }
    }
    return Ok(specs);
  }

  method WalkChain(byType: map<string, Spec>, start: string) returns (error: Option<WalkError>)
    ensures error == ChainError(byType, start, {})
  {
    var current := start;
    var visiting: set<string> := {};
    while current != ""
      invariant ChainError(byType, current, visiting) == ChainError(byType, start, {})
      decreases |byType.Keys - visiting|
    {
      if current in visiting {
        return Some(Cycle(current));
      }
      if current !in byType {
        return Some(Unknown(current));
      }
      FewerUnvisited(byType.Keys, visiting, current);
      visiting := visiting + {current};
      current := Base(byType[current]);
    }
    return None;
  }
}
