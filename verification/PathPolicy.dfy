/**
 * The class of a repository path (`classify_repo_path`): an ordered list of tests, and what its answers for a directory
 * say about everything below it.
 */
module PathPolicy {
  import opened Ordering

  type Parts = seq<string>

  /** A PurePosixPath: its parts, the root of an absolute path being one of them. */
  datatype Path = Path(absolute: bool, parts: Parts)

  datatype PathClass =
    | PortableTruth
    | StaticView
    | OperationalWork
    | RecoverableWork
    | RebuildableWork
    | TransactionWork
    | LocalEvidence
    | SpecializedRecovery
    | ArkRuntime
    | ProcessRuntime
    | BuildArtifact
    | GitInternal
    | LocalSecret
    | LegacyOperational

  datatype WorkKind =
    | SourceCorpusDraft
    | ResourceDraft
    | MathlibCandidateCache
    | SourceCorpusPreview
    | SourceCorpusStaging
    | SourceIndexRecovery
    | Audit
    | Receipt

  datatype Classification =
    | Classified(path: string, class_: PathClass, kind: Option<WorkKind>)
    | Unsafe

  const LC := ".lean_constellation"

  const LEGACY: seq<Parts> := [
    [LC, "source_draft"],
    [LC, "resources", ".drafts"],
    [LC, "resources", "tmp"],
    [LC, "indexes", "mathlib_candidates.json"],
    [LC, ".source_corpus_staging"],
    [LC, "source_index", "operator_baseline.json"],
    [LC, "audit", "gate_gaps.jsonl"],
    [LC, "publication", "remote_receipts"],
    [LC, "checkpoints"],
    [LC, "locks"],
    [LC, "staging"],
    ["docs", "lean-constellation", "public-api"]
  ]

  const SPECIALIZED: seq<Parts> := [[LC, "snapshots"], [LC, ".locks"]]

  const BUILD_ROOTS: set<string> :=
    {".lake", ".mypy_cache", ".pytest_cache", ".ruff_cache", "__pycache__", "htmlcov"}

  const MANAGED_IGNORE_ROOTS: seq<Parts> := [
    [".lake"],
    [".lhf"],
    [LC, "restructure"],
    [".agent_runtime"],
    [".runtime"],
    [LC, "work"],
    [LC, "snapshots"],
    [LC, ".locks"]
  ]

  predicate SafePart(part: string) {
    part != "" && part != "." && part != ".." && '\\' !in part && '\0' !in part
  }

  predicate Safe(path: Path) {
    !path.absolute && path.parts != [] && forall i :: 0 <= i < |path.parts| ==> SafePart(path.parts[i])
  }

  predicate AtOrBelowAny(parts: Parts, roots: seq<Parts>) {
    exists i :: 0 <= i < |roots| && roots[i] <= parts
  }

  function Leaf(parts: Parts): string { if parts == [] then "" else parts[|parts| - 1] }

  predicate IsSecretName(name: string) {
    name == "auth.json" || name == ".env" || (".env." <= name && name != ".env.example")
  }

  /** `str.rfind('.')`, -1 if there is none. */
  function LastDot(name: string): (i: int)
    ensures -1 <= i < |name|
  {
    if name == "" then -1 else if name[|name| - 1] == '.' then |name| - 1 else LastDot(name[..|name| - 1])
  }

  /** `PurePath.suffix`: what follows from the last dot, unless the name starts or ends with it. */
  function Suffix(name: string): string {
    var i := LastDot(name);
    if 0 < i < |name| - 1 then name[i..] else ""
  }

  predicate IsBuildPath(parts: Parts) {
    parts != [] && (parts[0] in BUILD_ROOTS || "__pycache__" in parts)
  }

  function Joined(parts: Parts): string {
    if parts == [] then "" else if |parts| == 1 then parts[0] else parts[0] + "/" + Joined(parts[1..])
  }

  function Classify(path: Path): Classification {
    if !Safe(path) then Unsafe
    else
      var (class_, kind) := ClassOf(path.parts);
      Classified(Joined(path.parts), class_, kind)
  }

  function ClassOf(parts: Parts): (PathClass, Option<WorkKind>)
    requires parts != []
  {
    if AtOrBelowAny(parts, LEGACY) then (LegacyOperational, None)
    else if parts[0] == ".lhf" then (StaticView, None)
    else if [LC, "restructure"] <= parts then (OperationalWork, None)
    else if parts[0] == ".git" then (GitInternal, None)
    else if parts[0] == ".agent_runtime" then (ArkRuntime, None)
    else if parts[0] == ".runtime" then (ProcessRuntime, None)
    else if IsSecretName(Leaf(parts)) then (LocalSecret, None)
    else if IsBuildPath(parts) || Suffix(Leaf(parts)) == ".pyc" then (BuildArtifact, None)
    else if AtOrBelowAny(parts, SPECIALIZED) then (SpecializedRecovery, None)
    else if [LC, "work"] <= parts then ClassOfWork(parts[2..])
    else (PortableTruth, None)
  }

  function ClassOfWork(relative: Parts): (PathClass, Option<WorkKind>) {
    if relative == [] then (OperationalWork, None)
    else
      var second := if |relative| >= 2 then relative[1] else "";
      var lifecycle := relative[0];
      if lifecycle == "drafts" then
        (RecoverableWork, if second == "source_corpus" then Some(SourceCorpusDraft)
                          else if second == "resources" then Some(ResourceDraft) else None)
      else if lifecycle == "recovery" then
        (RecoverableWork, if second == "source_index" then Some(SourceIndexRecovery) else None)
      else if lifecycle == "cache" then
        (RebuildableWork, if second == "mathlib_candidates.json" then Some(MathlibCandidateCache) else None)
      else if lifecycle == "previews" then
        (RebuildableWork, if second == "source_corpus" then Some(SourceCorpusPreview) else None)
      else if lifecycle == "staging" then
        (TransactionWork, if second == "source_corpus" then Some(SourceCorpusStaging) else None)
      else if lifecycle == "audit" then (LocalEvidence, Some(Audit))
      else if lifecycle == "receipts" then (LocalEvidence, Some(Receipt))
      else (OperationalWork, None)
  }

  // ----- readings of the tests -----

  predicate IsPortable(path: Path) {
    var c := Classify(path);
    c.Classified? && c.class_ == PortableTruth
  }

  predicate IsLegacy(path: Path) {
    var c := Classify(path);
    c.Classified? && c.class_ == LegacyOperational
  }

  /** The last part alone excludes the path: a secret file, or compiled Python. */
  predicate ExcludedByName(parts: Parts) {
    IsSecretName(Leaf(parts)) || EndsInPyc(Leaf(parts))
  }

  predicate EndsInPyc(name: string) {
    |name| > 4 && name[|name| - 4..] == ".pyc"
  }

  lemma {:induction false} LastDotIsLast(name: string)
    ensures LastDot(name) >= 0 ==> name[LastDot(name)] == '.'
    ensures forall j :: LastDot(name) < j < |name| ==> name[j] != '.'
  {
    if name != "" && name[|name| - 1] != '.' {
      LastDotIsLast(name[..|name| - 1]);
    }
  }

  lemma SuffixIsPyc(name: string)
    ensures Suffix(name) == ".pyc" <==> EndsInPyc(name)
  {
    LastDotIsLast(name);
    var i := LastDot(name);
    if EndsInPyc(name) {
      var s := name[|name| - 4..];
      assert s[0] == '.' && s[1] == 'p' && s[2] == 'y' && s[3] == 'c';
      assert i == |name| - 4;
    }
    if Suffix(name) == ".pyc" {
      assert |name[i..]| == 4;
    }
  }

  lemma SpecializedRoots(parts: Parts)
    ensures AtOrBelowAny(parts, SPECIALIZED) <==> [LC, "snapshots"] <= parts || [LC, ".locks"] <= parts
  {
    assert SPECIALIZED[0] == [LC, "snapshots"] && SPECIALIZED[1] == [LC, ".locks"];
  }

  lemma IgnoreRoots(parts: Parts)
    requires parts != []
    ensures AtOrBelowAny(parts, MANAGED_IGNORE_ROOTS) <==>
            || parts[0] in {".lake", ".lhf", ".agent_runtime", ".runtime"}
            || [LC, "restructure"] <= parts || [LC, "work"] <= parts || AtOrBelowAny(parts, SPECIALIZED)
  {
    SpecializedRoots(parts);
    var roots := MANAGED_IGNORE_ROOTS;
    assert roots[0] == [".lake"] && roots[1] == [".lhf"] && roots[2] == [LC, "restructure"];
    assert roots[3] == [".agent_runtime"] && roots[4] == [".runtime"] && roots[5] == [LC, "work"];
    assert roots[6] == [LC, "snapshots"] && roots[7] == [LC, ".locks"];
  }

  lemma WorkIsNeverPortable(relative: Parts)
    ensures ClassOfWork(relative).0 in
            {OperationalWork, RecoverableWork, RebuildableWork, TransactionWork, LocalEvidence}
  {
  }

  lemma PortableClass(parts: Parts)
    requires parts != []
    ensures ClassOf(parts).0 == PortableTruth <==>
            && !AtOrBelowAny(parts, LEGACY) && !AtOrBelowAny(parts, SPECIALIZED)
            && parts[0] !in {".lhf", ".git", ".agent_runtime", ".runtime"}
            && !([LC, "restructure"] <= parts) && !([LC, "work"] <= parts)
            && !IsSecretName(Leaf(parts)) && !IsBuildPath(parts) && Suffix(Leaf(parts)) != ".pyc"
  {
    if [LC, "work"] <= parts {
      WorkIsNeverPortable(parts[2..]);
    }
  }

  /** A safe path is portable truth exactly if no legacy root, ignore root, Git, build root or name excludes it. */
  lemma PortableIff(path: Path)
    requires Safe(path)
    ensures IsPortable(path) <==>
            && !AtOrBelowAny(path.parts, LEGACY)
            && !AtOrBelowAny(path.parts, MANAGED_IGNORE_ROOTS)
            && path.parts[0] != ".git"
            && !IsBuildPath(path.parts)
            && !ExcludedByName(path.parts)
  {
    PortableClass(path.parts);
    SuffixIsPyc(Leaf(path.parts));
    IgnoreRoots(path.parts);
  }

  // ----- legacy roots and ignore roots do not meet -----

  predicate Apart(p: Parts, q: Parts) { !(p <= q) && !(q <= p) }

  lemma ApartBelow(p: Parts, q: Parts, parts: Parts)
    requires Apart(p, q) && p <= parts
    ensures !(q <= parts)
  {
  }

  lemma RootsApart(i: nat, j: nat)
    requires i < |LEGACY| && j < |MANAGED_IGNORE_ROOTS|
    ensures Apart(LEGACY[i], MANAGED_IGNORE_ROOTS[j])
  {
    var legacy, root := LEGACY[i], MANAGED_IGNORE_ROOTS[j];
    assert |legacy| >= 2 && (legacy[0] == LC || legacy[0] == "docs");
    if root[0] == LC {
      assert root[1] in {"restructure", "work", "snapshots", ".locks"};
      assert legacy[1] !in {"restructure", "work", "snapshots", ".locks"};
    }
  }

  lemma BelowIgnoreRootIsNotLegacy(parts: Parts, j: nat)
    requires j < |MANAGED_IGNORE_ROOTS| && MANAGED_IGNORE_ROOTS[j] <= parts
    ensures !AtOrBelowAny(parts, LEGACY)
  {
    forall i | 0 <= i < |LEGACY| ensures !(LEGACY[i] <= parts) {
      RootsApart(i, j);
      ApartBelow(MANAGED_IGNORE_ROOTS[j], LEGACY[i], parts);
    }
  }

  lemma LegacyClassIff(parts: Parts)
    requires parts != []
    ensures ClassOf(parts).0 == LegacyOperational <==> AtOrBelowAny(parts, LEGACY)
  {
  }

  /** Whatever is at or below a managed ignore root is neither publishable nor marked for migration. */
  lemma IgnoreRootsHoldNothingPortable(path: Path)
    requires AtOrBelowAny(path.parts, MANAGED_IGNORE_ROOTS)
    ensures !IsPortable(path) && !IsLegacy(path)
  {
    if Safe(path) {
      PortableIff(path);
      LegacyClassIff(path.parts);
      var j :| 0 <= j < |MANAGED_IGNORE_ROOTS| && MANAGED_IGNORE_ROOTS[j] <= path.parts;
      BelowIgnoreRootIsNotLegacy(path.parts, j);
    }
  }

  lemma ManagedRootIsSafe(j: nat)
    requires j < |MANAGED_IGNORE_ROOTS|
    ensures Safe(Path(false, MANAGED_IGNORE_ROOTS[j]))
  {
    var parts := MANAGED_IGNORE_ROOTS[j];
    assert |parts| == 1 || |parts| == 2;
    assert SafePart(parts[0]);
    assert |parts| == 2 ==> SafePart(parts[1]);
  }

  /** `managed_publication_ignore_roots` never raises. */
  lemma ManagedRootsAreAccepted(j: nat)
    requires j < |MANAGED_IGNORE_ROOTS|
    ensures
      var c := Classify(Path(false, MANAGED_IGNORE_ROOTS[j]));
      c.Classified? && c.class_ != PortableTruth && c.class_ != LegacyOperational
  {
    var path := Path(false, MANAGED_IGNORE_ROOTS[j]);
    assert MANAGED_IGNORE_ROOTS[j] <= path.parts;
    ManagedRootIsSafe(j);
    IgnoreRootsHoldNothingPortable(path);
  }

  // ----- extending a path -----

  lemma RootsInherited(parts: Parts, more: Parts, roots: seq<Parts>)
    requires AtOrBelowAny(parts, roots)
    ensures AtOrBelowAny(parts + more, roots)
  {
  }

  lemma SafePrefix(parts: Parts, more: Parts)
    requires parts != [] && Safe(Path(false, parts + more))
    ensures Safe(Path(false, parts))
  {
    assert forall i :: 0 <= i < |parts| ==> (parts + more)[i] == parts[i];
  }

  /** If anything below a path is portable truth, the path is, unless its own last part excludes it: both ways. */
  lemma PortableAbove(parts: Parts, more: Parts)
    requires parts != [] && IsPortable(Path(false, parts + more))
    ensures IsPortable(Path(false, parts)) <==> !ExcludedByName(parts)
  {
    SafePrefix(parts, more);
    PortableIff(Path(false, parts));
    PortableIff(Path(false, parts + more));
    if AtOrBelowAny(parts, LEGACY) {
      RootsInherited(parts, more, LEGACY);
    }
    if AtOrBelowAny(parts, MANAGED_IGNORE_ROOTS) {
      RootsInherited(parts, more, MANAGED_IGNORE_ROOTS);
    }
    assert (parts + more)[0] == parts[0];
    assert forall p :: p in parts ==> p in parts + more;
  }

  /** The classes that hold for a whole subtree: everything below such a path has its class. */
  predicate IsSubtreeClass(c: PathClass) {
    c in {LegacyOperational, StaticView, GitInternal, ArkRuntime, ProcessRuntime}
  }

  lemma LegacyKeepsClass(parts: Parts, more: Parts)
    requires AtOrBelowAny(parts, LEGACY)
    ensures parts != [] && ClassOf(parts) == ClassOf(parts + more) == (LegacyOperational, None)
  {
  }

  lemma RestructureKeepsClass(parts: Parts, more: Parts)
    requires [LC, "restructure"] <= parts
    ensures ClassOf(parts) == ClassOf(parts + more) == (OperationalWork, None)
  {
    BelowIgnoreRootIsNotLegacy(parts, 2);
    BelowIgnoreRootIsNotLegacy(parts + more, 2);
  }

  predicate IsReservedRoot(name: string) { name in {".lhf", ".git", ".agent_runtime", ".runtime"} }

  lemma ReservedRootKeepsClass(parts: Parts, more: Parts)
    requires parts != [] && IsReservedRoot(parts[0])
    ensures ClassOf(parts + more) == ClassOf(parts)
  {
    LegacyStarts(parts);
    LegacyStarts(parts + more);
    assert (parts + more)[0] == parts[0];
  }

  /** Everything below a path of a subtree class has the same class, whatever it is named. */
  lemma SubtreeKeepsClass(parts: Parts, more: Parts)
    requires parts != []
    requires IsSubtreeClass(ClassOf(parts).0) || [LC, "restructure"] <= parts
    ensures ClassOf(parts + more) == ClassOf(parts)
  {
    if AtOrBelowAny(parts, LEGACY) {
      LegacyKeepsClass(parts, more);
    } else if [LC, "restructure"] <= parts {
      RestructureKeepsClass(parts, more);
    } else {
      SubtreeClassRoot(parts);
      ReservedRootKeepsClass(parts, more);
    }
  }

  lemma SubtreeClassRoot(parts: Parts)
    requires parts != [] && !AtOrBelowAny(parts, LEGACY)
    requires IsSubtreeClass(ClassOf(parts).0)
    ensures IsReservedRoot(parts[0])
  {
  }

  lemma LegacyStarts(parts: Parts)
    ensures AtOrBelowAny(parts, LEGACY) ==> parts != [] && (parts[0] == LC || parts[0] == "docs")
  {
  }

  lemma WorkClass(parts: Parts)
    requires [LC, "work"] <= parts && !ExcludedByName(parts) && !IsBuildPath(parts)
    ensures ClassOf(parts) == ClassOfWork(parts[2..])
  {
    BelowIgnoreRootIsNotLegacy(parts, 5);
    SuffixIsPyc(Leaf(parts));
    SpecializedRoots(parts);
    assert parts[0] == LC && parts[1] == "work";
  }

  lemma WorkFamilyKeepsClass(relative: Parts, more: Parts)
    requires relative != []
    ensures ClassOfWork(relative + more).0 == ClassOfWork(relative).0
    ensures |relative| >= 2 ==> ClassOfWork(relative + more) == ClassOfWork(relative)
  {
  }

  lemma BuildPathInherited(parts: Parts, more: Parts)
    requires parts != []
    ensures IsBuildPath(parts) ==> IsBuildPath(parts + more)
  {
  }

  lemma DropTwo(parts: Parts, more: Parts)
    requires |parts| >= 2
    ensures (parts + more)[2..] == parts[2..] + more
  {
  }

  /** Below `work/<lifecycle>` the class is the lifecycle's, and below `work/<lifecycle>/<family>` the kind too. */
  lemma WorkKeepsClass(parts: Parts, more: Parts)
    requires [LC, "work"] <= parts && |parts| >= 3
    requires !ExcludedByName(parts) && !ExcludedByName(parts + more) && !IsBuildPath(parts + more)
    ensures ClassOf(parts + more).0 == ClassOf(parts).0
    ensures |parts| >= 4 ==> ClassOf(parts + more) == ClassOf(parts)
  {
    BuildPathInherited(parts, more);
    WorkClass(parts);
    WorkClass(parts + more);
    DropTwo(parts, more);
    WorkFamilyKeepsClass(parts[2..], more);
  }

  lemma SpecializedKeepsClass(parts: Parts, more: Parts)
    requires AtOrBelowAny(parts, SPECIALIZED)
    ensures parts != [] && ClassOf(parts + more).0 in {SpecializedRecovery, LocalSecret, BuildArtifact}
  {
    var below := parts + more;
    SpecializedRoots(parts);
    RootsInherited(parts, more, SPECIALIZED);
    BelowIgnoreRootIsNotLegacy(below, if [LC, "snapshots"] <= parts then 6 else 7);
    assert below[0] == LC && below[1] == parts[1] && (parts[1] == "snapshots" || parts[1] == ".locks");
  }

  lemma LegacyNamesNoBuildPath(parts: Parts, i: nat)
    requires i < |LEGACY| && parts <= LEGACY[i]
    ensures !IsBuildPath(parts)
  {
  }

  lemma BuildPathNotLegacyBelow(parts: Parts, more: Parts)
    requires IsBuildPath(parts) && !AtOrBelowAny(parts, LEGACY)
    ensures !AtOrBelowAny(parts + more, LEGACY)
  {
    if AtOrBelowAny(parts + more, LEGACY) {
      var i :| 0 <= i < |LEGACY| && LEGACY[i] <= parts + more;
      assert LEGACY[i] <= parts || parts <= LEGACY[i];
      if parts <= LEGACY[i] {
        LegacyNamesNoBuildPath(parts, i);
      }
    }
  }

  lemma BuildKeepsClass(parts: Parts, more: Parts)
    requires IsBuildPath(parts) && ClassOf(parts).0 in {BuildArtifact, LocalSecret}
    ensures ClassOf(parts + more).0 in {BuildArtifact, LocalSecret}
  {
    var below := parts + more;
    BuildPathNotLegacyBelow(parts, more);
    assert below[0] == parts[0];
    assert forall p :: p in parts ==> p in below;
    assert |parts| == 1 ==> parts[0] != LC;
    assert |parts| >= 2 ==> below[1] == parts[1];
    assert !([LC, "restructure"] <= below);
  }

  lemma WorkBelow(parts: Parts, more: Parts)
    requires [LC, "work"] <= parts && |parts| >= 3 && !ExcludedByName(parts)
    ensures ClassOf(parts + more).0 in {ClassOf(parts).0, LocalSecret, BuildArtifact}
  {
    var below := parts + more;
    SuffixIsPyc(Leaf(below));
    BelowIgnoreRootIsNotLegacy(below, 5);
    if !ExcludedByName(below) && !IsBuildPath(below) {
      WorkKeepsClass(parts, more);
    }
  }

  lemma NonportableReasons(parts: Parts)
    requires parts != [] && ClassOf(parts).0 != PortableTruth
    ensures
      || IsSubtreeClass(ClassOf(parts).0)
      || [LC, "restructure"] <= parts
      || (IsBuildPath(parts) && ClassOf(parts).0 in {BuildArtifact, LocalSecret})
      || ExcludedByName(parts)
      || (AtOrBelowAny(parts, SPECIALIZED) && ClassOf(parts).0 == SpecializedRecovery)
      || [LC, "work"] <= parts
  {
  }

  /**
   * Below a path that is not portable, and not only because of its own last part, everything has the class of that
   * path or is a secret or a build artifact; only the root of the work area is divided further.
   */
  lemma BelowKeepsClass(parts: Parts, more: Parts)
    requires parts != [] && parts != [LC, "work"]
    requires ClassOf(parts).0 != PortableTruth
    requires IsSubtreeClass(ClassOf(parts).0) || IsBuildPath(parts) || !ExcludedByName(parts)
    ensures ClassOf(parts + more).0 in {ClassOf(parts).0, LocalSecret, BuildArtifact}
  {
    NonportableReasons(parts);
    if IsSubtreeClass(ClassOf(parts).0) || [LC, "restructure"] <= parts {
      SubtreeKeepsClass(parts, more);
    } else if IsBuildPath(parts) {
      BuildPathReasons(parts);
      BuildKeepsClass(parts, more);
    } else if AtOrBelowAny(parts, SPECIALIZED) && ClassOf(parts).0 == SpecializedRecovery {
      SpecializedKeepsClass(parts, more);
    } else {
      WorkBelow(parts, more);
    }
  }

  lemma BuildPathReasons(parts: Parts)
    requires IsBuildPath(parts) && !IsSubtreeClass(ClassOf(parts).0) && !([LC, "restructure"] <= parts)
    ensures ClassOf(parts).0 in {BuildArtifact, LocalSecret}
  {
  }

  // ----- the normalized text -----

  /** The parts of a PurePosixPath are never empty and hold no slash. */
  predicate IsPart(part: string) { part != "" && '/' !in part }

  predicate StartsWithSlash(s: string) { s == "" || s[0] == '/' }

  lemma HeadNoLonger(p: string, s: string, q: string, t: string)
    requires '/' !in q && StartsWithSlash(s) && p + s == q + t
    ensures |q| <= |p|
  {
    assert forall k :: 0 <= k < |q| ==> (q + t)[k] == q[k];
    assert s != "" ==> (p + s)[|p|] == '/';
    assert |p + s| >= |q|;
  }

  lemma SplitAtSlash(p: string, s: string, q: string, t: string)
    requires '/' !in p && '/' !in q && StartsWithSlash(s) && StartsWithSlash(t)
    requires p + s == q + t
    ensures p == q && s == t
  {
    HeadNoLonger(p, s, q, t);
    HeadNoLonger(q, t, p, s);
    assert p == (p + s)[..|p|] && q == (q + t)[..|q|];
    assert s == (p + s)[|p|..] && t == (q + t)[|q|..];
  }

  function Rest(parts: Parts): string
    requires parts != []
  {
    if |parts| == 1 then "" else "/" + Joined(parts[1..])
  }

  lemma FirstAndRest(parts: Parts)
    requires parts != []
    ensures Joined(parts) == parts[0] + Rest(parts) && StartsWithSlash(Rest(parts))
    ensures |parts| > 1 <==> Rest(parts) != ""
    ensures |parts| > 1 ==> Rest(parts)[1..] == Joined(parts[1..])
  {
    assert parts[0] + "" == parts[0];
  }

  predicate AreParts(parts: Parts) { forall i :: 0 <= i < |parts| ==> IsPart(parts[i]) }

  lemma SameFromFirst(a: Parts, b: Parts)
    requires a != [] && b != [] && a[0] == b[0] && a[1..] == b[1..]
    ensures a == b
  {
    assert a == [a[0]] + a[1..] && b == [b[0]] + b[1..];
  }

  lemma FirstAgrees(a: Parts, b: Parts)
    requires a != [] && b != [] && AreParts(a) && AreParts(b) && Joined(a) == Joined(b)
    ensures a[0] == b[0] && Rest(a) == Rest(b)
  {
    FirstAndRest(a);
    FirstAndRest(b);
    assert IsPart(a[0]) && IsPart(b[0]);
    SplitAtSlash(a[0], Rest(a), b[0], Rest(b));
  }

  lemma NonemptyText(parts: Parts)
    requires AreParts(parts) && parts != []
    ensures Joined(parts) != ""
  {
    assert IsPart(parts[0]);
    FirstAndRest(parts);
  }

  /** The text recorded in a classification determines the path. */
  lemma {:induction false} TextIdentifiesPath(a: Parts, b: Parts)
    requires AreParts(a) && AreParts(b) && Joined(a) == Joined(b)
    ensures a == b
  {
    if a == [] || b == [] {
      if a != [] {
        NonemptyText(a);
      }
      if b != [] {
        NonemptyText(b);
      }
    } else {
      FirstAgrees(a, b);
      FirstAndRest(a);
      FirstAndRest(b);
      if |a| > 1 {
        assert AreParts(a[1..]) && AreParts(b[1..]);
        TextIdentifiesPath(a[1..], b[1..]);
      }
      SameFromFirst(a, b);
    }
  }
}
