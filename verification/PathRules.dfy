/**
 * The path classifier as a table of roots: the ordered list of tests gives a path the class of the most specific root
 * it is at or below, in whatever order the table is read; names of secrets and build artifacts count only outside the
 * roots that are classed as a whole.
 */
module PathRules {
  import opened Ordering
  import opened PathPolicy

  /** `whole`: everything below the root has its class, whatever it is named. */
  datatype Rule = Rule(root: Parts, class_: PathClass, kind: Option<WorkKind>, whole: bool)

  function Migrate(root: Parts): Rule {
    Rule(root, LegacyOperational, None, true)
  }

  const RESERVED := [
    Migrate([".lean_constellation", "source_draft"]),
    Migrate([".lean_constellation", "resources", ".drafts"]),
    Migrate([".lean_constellation", "resources", "tmp"]),
    Migrate([".lean_constellation", "indexes", "mathlib_candidates.json"]),
    Migrate([".lean_constellation", ".source_corpus_staging"]),
    Migrate([".lean_constellation", "source_index", "operator_baseline.json"]),
    Migrate([".lean_constellation", "audit", "gate_gaps.jsonl"]),
    Migrate([".lean_constellation", "publication", "remote_receipts"]),
    Migrate([".lean_constellation", "checkpoints"]),
    Migrate([".lean_constellation", "locks"]),
    Migrate([".lean_constellation", "staging"]),
    Migrate(["docs", "lean-constellation", "public-api"]),
    Rule([".lhf"], StaticView, None, true),
    Rule([".lean_constellation", "restructure"], OperationalWork, None, true),
    Rule([".git"], GitInternal, None, true),
    Rule([".agent_runtime"], ArkRuntime, None, true),
    Rule([".runtime"], ProcessRuntime, None, true)
  ]

  /** Below the root of the work area. */
  const WORK := [
    Rule([], OperationalWork, None, false),
    Rule(["drafts"], RecoverableWork, None, false),
    Rule(["drafts", "source_corpus"], RecoverableWork, Some(SourceCorpusDraft), false),
    Rule(["drafts", "resources"], RecoverableWork, Some(ResourceDraft), false),
    Rule(["recovery"], RecoverableWork, None, false),
    Rule(["recovery", "source_index"], RecoverableWork, Some(SourceIndexRecovery), false),
    Rule(["cache"], RebuildableWork, None, false),
    Rule(["cache", "mathlib_candidates.json"], RebuildableWork, Some(MathlibCandidateCache), false),
    Rule(["previews"], RebuildableWork, None, false),
    Rule(["previews", "source_corpus"], RebuildableWork, Some(SourceCorpusPreview), false),
    Rule(["staging"], TransactionWork, None, false),
    Rule(["staging", "source_corpus"], TransactionWork, Some(SourceCorpusStaging), false),
    Rule(["audit"], LocalEvidence, Some(Audit), false),
    Rule(["receipts"], LocalEvidence, Some(Receipt), false)
  ]

  const AREA := [".lean_constellation", "work"]

  const SNAPSHOTS := [
    Rule([".lean_constellation", "snapshots"], SpecializedRecovery, None, false),
    Rule([".lean_constellation", ".locks"], SpecializedRecovery, None, false)
  ]

  predicate ReservedRule(r: Rule, k: nat) { k < |RESERVED| && r == RESERVED[k] }

  predicate SnapshotRule(r: Rule, k: nat) { k < |SNAPSHOTS| && r == SNAPSHOTS[k] }

  predicate WorkRule(r: Rule, k: nat) { k < |WORK| && r == WORK[k].(root := AREA + WORK[k].root) }

  ghost predicate IsReserved(r: Rule) { exists k: nat :: ReservedRule(r, k) }

  ghost predicate IsSnapshot(r: Rule) { exists k: nat :: SnapshotRule(r, k) }

  ghost predicate IsWork(r: Rule) { exists k: nat :: WorkRule(r, k) }

  ghost predicate IsRule(r: Rule) { IsReserved(r) || IsSnapshot(r) || IsWork(r) }

  /** The path is at or below the root of this rule, and not of one with a longer root. */
  ghost predicate MostSpecific(parts: Parts, rule: Rule) {
    IsRule(rule) && rule.root <= parts && forall r :: IsRule(r) && r.root <= parts ==> |r.root| <= |rule.root|
  }

  /** If any rule applies, one is most specific. */
  lemma {:induction false} SomeMostSpecific(parts: Parts, rule: Rule) returns (best: Rule)
    requires IsRule(rule) && rule.root <= parts
    ensures MostSpecific(parts, best)
    decreases |parts| - |rule.root|
  {
    if r :| IsRule(r) && r.root <= parts && |r.root| > |rule.root| {
      best := SomeMostSpecific(parts, r);
    } else {
      best := rule;
    }
  }

  predicate SecretName(name: string) {
    name in ["auth.json", ".env"] || (|name| >= 5 && name[..5] == ".env." && name != ".env.example")
  }

  predicate BuildArtifactName(parts: Parts)
    requires parts != []
  {
    var name := parts[|parts| - 1];
    || parts[0] in [".lake", ".mypy_cache", ".pytest_cache", ".ruff_cache", "__pycache__", "htmlcov"]
    || "__pycache__" in parts
    || (|name| > 4 && name[|name| - 4..] == ".pyc")
  }

  /** The class a path has by its names, where no root decides for the whole of what is below it. */
  function ByName(parts: Parts, otherwise: (PathClass, Option<WorkKind>)): (PathClass, Option<WorkKind>)
    requires parts != []
  {
    if SecretName(parts[|parts| - 1]) then (LocalSecret, None)
    else if BuildArtifactName(parts) then (BuildArtifact, None)
    else otherwise
  }

  lemma NamesAgree(parts: Parts)
    requires parts != []
    ensures IsSecretName(Leaf(parts)) <==> SecretName(parts[|parts| - 1])
    ensures IsBuildPath(parts) || Suffix(Leaf(parts)) == ".pyc" <==> BuildArtifactName(parts)
  {
    SuffixIsPyc(Leaf(parts));
  }

  lemma LegacyDecides(parts: Parts, k: nat)
    requires k < 12 && RESERVED[k].root <= parts
    ensures parts != [] && ClassOf(parts) == (LegacyOperational, None) && RESERVED[k] == Migrate(RESERVED[k].root)
  {
    assert LEGACY[k] == RESERVED[k].root;
    assert AtOrBelowAny(parts, LEGACY);
  }

  lemma OtherReservedDecides(parts: Parts, k: nat)
    requires 12 <= k < |RESERVED| && RESERVED[k].root <= parts
    ensures parts != [] && ClassOf(parts) == (RESERVED[k].class_, RESERVED[k].kind) && RESERVED[k].whole
  {
    assert RESERVED[k].root != [] && parts[0] == RESERVED[k].root[0];
    LegacyStarts(parts);
    if k == 13 {
      BelowIgnoreRootIsNotLegacy(parts, 2);
    }
  }

  lemma ReservedDecides(parts: Parts, rule: Rule)
    requires IsReserved(rule) && rule.root <= parts
    ensures parts != [] && ClassOf(parts) == (rule.class_, rule.kind) && rule.whole
  {
    var k: nat :| ReservedRule(rule, k);
    if k < 12 {
      LegacyDecides(parts, k);
    } else {
      OtherReservedDecides(parts, k);
    }
  }

  /** No root of the list that the path is at or below is longer than n. */
  ghost predicate NoneLonger(rules: seq<Rule>, parts: Parts, n: nat) {
    forall i :: 0 <= i < |rules| && rules[i].root <= parts ==> |rules[i].root| <= n
  }

  lemma FamilyDecides(relative: Parts, k: nat)
    requires k < |WORK| && |WORK[k].root| == 2 && WORK[k].root <= relative
    ensures ClassOfWork(relative) == (WORK[k].class_, WORK[k].kind)
  {
    assert relative[0] == WORK[k].root[0] && relative[1] == WORK[k].root[1];
  }

  lemma LifecycleDecides(relative: Parts, k: nat)
    requires k < |WORK| && |WORK[k].root| == 1 && WORK[k].root <= relative && NoneLonger(WORK, relative, 1)
    ensures ClassOfWork(relative) == (WORK[k].class_, WORK[k].kind)
  {
    assert relative[0] == WORK[k].root[0];
    if |relative| > 1 {
      assert k < 12 ==> WORK[k + 1].root[0] == relative[0] && WORK[k + 1].root != relative[..2];
      assert k == 1 ==> WORK[3].root != relative[..2];
    }
  }

  lemma AreaDecides(relative: Parts)
    requires NoneLonger(WORK, relative, 0)
    ensures ClassOfWork(relative) == (OperationalWork, None)
  {
    if relative != [] {
      assert WORK[1].root != relative[..1] && WORK[4].root != relative[..1] && WORK[6].root != relative[..1];
      assert WORK[8].root != relative[..1] && WORK[10].root != relative[..1];
      assert WORK[12].root != relative[..1] && WORK[13].root != relative[..1];
      assert relative[..1] == [relative[0]];
    }
  }

  lemma WorkDecides(relative: Parts, k: nat)
    requires k < |WORK| && WORK[k].root <= relative && NoneLonger(WORK, relative, |WORK[k].root|)
    ensures ClassOfWork(relative) == (WORK[k].class_, WORK[k].kind)
  {
    if |WORK[k].root| == 2 {
      FamilyDecides(relative, k);
    } else if |WORK[k].root| == 1 {
      LifecycleDecides(relative, k);
    } else {
      AreaDecides(relative);
    }
  }

  lemma SnapshotsDecide(parts: Parts, rule: Rule)
    requires IsSnapshot(rule) && rule.root <= parts
    ensures ClassOf(parts) == ByName(parts, (rule.class_, rule.kind)) && !rule.whole
  {
    var k: nat :| SnapshotRule(rule, k);
    BelowIgnoreRootIsNotLegacy(parts, 6 + k);
    SpecializedRoots(parts);
    NamesAgree(parts);
    assert parts[0] == LC && parts[1] == SNAPSHOTS[k].root[1];
  }

  lemma InWorkArea(parts: Parts)
    requires AREA <= parts
    ensures ClassOf(parts) == ByName(parts, ClassOfWork(parts[2..]))
  {
    BelowIgnoreRootIsNotLegacy(parts, 5);
    SpecializedRoots(parts);
    NamesAgree(parts);
    assert parts[0] == LC && parts[1] == "work";
  }

  lemma WorkRuleApplies(parts: Parts, k: nat)
    requires AREA <= parts && k < |WORK| && WORK[k].root <= parts[2..]
    ensures var r := WORK[k].(root := AREA + WORK[k].root); IsRule(r) && r.root <= parts
  {
    var r := WORK[k].(root := AREA + WORK[k].root);
    assert WorkRule(r, k);
    assert parts == AREA + parts[2..];
  }

  lemma NoLongerWorkRule(parts: Parts, rule: Rule)
    requires MostSpecific(parts, rule) && AREA <= rule.root
    ensures AREA <= parts && NoneLonger(WORK, parts[2..], |rule.root| - 2)
  {
    forall i | 0 <= i < |WORK| && WORK[i].root <= parts[2..] ensures |WORK[i].root| <= |rule.root| - 2 {
      WorkRuleApplies(parts, i);
    }
  }

  lemma WorkRuleDecides(parts: Parts, rule: Rule, k: nat)
    requires WorkRule(rule, k) && rule.root <= parts && NoneLonger(WORK, parts[2..], |rule.root| - 2)
    ensures ClassOf(parts) == ByName(parts, (rule.class_, rule.kind)) && !rule.whole
  {
    assert WORK[k].root <= parts[2..];
    InWorkArea(parts);
    WorkDecides(parts[2..], k);
  }

  lemma WorkRulesDecide(parts: Parts, rule: Rule)
    requires MostSpecific(parts, rule) && IsWork(rule)
    ensures ClassOf(parts) == ByName(parts, (rule.class_, rule.kind)) && !rule.whole
  {
    var k: nat :| WorkRule(rule, k);
    NoLongerWorkRule(parts, rule);
    WorkRuleDecides(parts, rule, k);
  }

  /** The ordered tests give a path the class of the most specific rule, unless its names decide. */
  lemma ClassIsMostSpecific(parts: Parts, rule: Rule)
    requires parts != [] && MostSpecific(parts, rule)
    ensures ClassOf(parts) ==
            if rule.whole then (rule.class_, rule.kind) else ByName(parts, (rule.class_, rule.kind))
  {
    if IsReserved(rule) {
      ReservedDecides(parts, rule);
    } else if IsSnapshot(rule) {
      SnapshotsDecide(parts, rule);
    } else {
      WorkRulesDecide(parts, rule);
    }
  }

  lemma NothingReserved(parts: Parts)
    requires parts != [] && forall i :: 0 <= i < |RESERVED| ==> !(RESERVED[i].root <= parts)
    ensures !AtOrBelowAny(parts, LEGACY)
    ensures parts[0] !in {".lhf", ".git", ".agent_runtime", ".runtime"} && !([LC, "restructure"] <= parts)
  {
    assert forall i :: 0 <= i < 12 ==> LEGACY[i] == RESERVED[i].root;
    assert parts[..1] == [parts[0]];
    assert !(RESERVED[12].root <= parts) && !(RESERVED[14].root <= parts);
    assert !(RESERVED[15].root <= parts) && !(RESERVED[16].root <= parts);
    assert RESERVED[13].root == [LC, "restructure"];
  }

  ghost predicate NoRule(parts: Parts) {
    forall r :: IsRule(r) ==> !(r.root <= parts)
  }

  lemma NoRuleReserves(parts: Parts)
    requires NoRule(parts)
    ensures forall i :: 0 <= i < |RESERVED| ==> !(RESERVED[i].root <= parts)
  {
    forall i | 0 <= i < |RESERVED| ensures !(RESERVED[i].root <= parts) {
      assert ReservedRule(RESERVED[i], i);
      assert IsReserved(RESERVED[i]);
    }
  }

  lemma NoRuleNamesArea(parts: Parts)
    requires NoRule(parts)
    ensures !AtOrBelowAny(parts, SPECIALIZED) && !(AREA <= parts)
  {
    assert SnapshotRule(SNAPSHOTS[0], 0) && SnapshotRule(SNAPSHOTS[1], 1);
    assert IsSnapshot(SNAPSHOTS[0]) && IsSnapshot(SNAPSHOTS[1]);
    SpecializedRoots(parts);
    if AREA <= parts {
      WorkRuleApplies(parts, 0);
    }
  }

  /** A path that no rule applies to is portable, unless its names decide. */
  lemma NoRuleMeansPortable(parts: Parts)
    requires parts != [] && NoRule(parts)
    ensures ClassOf(parts) == ByName(parts, (PortableTruth, None))
  {
    NoRuleReserves(parts);
    NothingReserved(parts);
    NoRuleNamesArea(parts);
    NamesAgree(parts);
  }

  /** What is refused: an absolute or empty path, or one with a part that no portable path has. */
  lemma RefusedIff(path: Path)
    ensures Classify(path) == Unsafe <==>
            || path.absolute || path.parts == []
            || exists p :: p in path.parts && (p in ["", ".", ".."] || '\\' in p || '\0' in p)
  {
    assert forall i :: 0 <= i < |path.parts| ==> path.parts[i] in path.parts;
  }

  /** Migration is required exactly for a path that is not refused and at or below a legacy root. */
  lemma MigrationIff(path: Path)
    ensures IsLegacy(path) <==> Classify(path) != Unsafe && exists i :: 0 <= i < |LEGACY| && LEGACY[i] <= path.parts
  {
  }
}
