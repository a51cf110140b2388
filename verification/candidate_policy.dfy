/** The candidate evaluation of `evolve_supervisor/supervisor.py`: which paths are guarded,
    what a delta may not touch, how risk floors combine, and the resulting verdict. */
module CandidatePolicy {
  import opened Strings
  import opened RelPaths
  import opened SupervisorFindings
  import TreeDelta

  const SUPERVISOR_OWNED := {
    "thomas/forge/anvil/doppelganger.py", "thomas/forge/anvil/evolve.py",
    "thomas/forge/anvil/evolve_autonomy.py", "thomas/forge/anvil/evolve_loop.py"}
  const RUNTIME_PREFIXES := {"thomas/tools/", "thomas/agent/", "thomas/core/", "thomas/server/", "scripts/"}
  const RUNTIME_FILES := {
    "agent_safety.toml", "AGENTS.md", "GUARDRAILS.md", ".pre-commit-config.yaml",
    "pyproject.toml", "thomas.toml", "thomas.prod.toml",
    "runtime/.runtime_protection_disabled", "runtime/.runtime_protection_key",
    "runtime/.breakglass_window", "runtime/.breakglass_window_key"}
  const LOOP_PREFIX := "thomas/forge/anvil/"
  const SUPERVISOR_PREFIX := "evolve_supervisor/"
  const CRITICAL := "critical"

  // ---------------------------------------------------------------- the risk lattice

  function Rank(key: string): nat {
    if key == "medium" then 1 else if key == "high" then 2 else if key == CRITICAL then 3 else 0
  }

  function RiskKey(risk: string): string { Lower(if risk == "" then "low" else risk) }

  /** `_max_risk`. */
  function MaxRisk(left: string, right: string): string {
    if Rank(RiskKey(left)) >= Rank(RiskKey(right)) then RiskKey(left) else RiskKey(right)
  }

  lemma LowerFixed(s: string)
    requires forall i :: 0 <= i < |s| ==> LowerChar(s[i]) == s[i]
    ensures Lower(s) == s
  {
  }

  lemma RiskKeyIdempotent(risk: string)
    ensures RiskKey(RiskKey(risk)) == RiskKey(risk)
  {
    LowerIdempotent(if risk == "" then "low" else risk);
  }

  lemma RiskKeyOfCritical()
    ensures RiskKey(CRITICAL) == CRITICAL && RiskKey("low") == "low"
  {
    hide Lower;
    LowerFixed(CRITICAL);
    LowerFixed("low");
  }

  /** The combined risk ranks as the higher of the two, keeps the left spelling on a tie, and
      grouping does not matter: risk floors can be folded in any grouping. */
  lemma MaxRiskIsJoin(a: string, b: string, c: string)
    ensures var ra, rb := Rank(RiskKey(a)), Rank(RiskKey(b)); Rank(MaxRisk(a, b)) == if ra >= rb then ra else rb
    ensures MaxRisk(a, MaxRisk(b, c)) == MaxRisk(MaxRisk(a, b), c)
    ensures MaxRisk(a, a) == RiskKey(a)
  {
    hide Rank, RiskKey;
    RiskKeyIdempotent(a);
    RiskKeyIdempotent(b);
    RiskKeyIdempotent(c);
  }

  /** Once critical, always critical, and only a critical part makes the whole critical. */
  lemma MaxRiskCriticalIff(a: string, b: string)
    ensures MaxRisk(a, b) == CRITICAL <==> RiskKey(a) == CRITICAL || RiskKey(b) == CRITICAL
    ensures RiskKey(MaxRisk(a, b)) == MaxRisk(a, b)
  {
    hide RiskKey;
    RiskKeyIdempotent(a);
    RiskKeyIdempotent(b);
  }

  // ---------------------------------------------------------------- guarded paths

  /** `agent_safety.toml`: absent, unreadable, or its test directories and protected rows. */
  datatype SafetyConfig = NoConfig | BadConfig | Config(testDirs: seq<string>, protectedRows: seq<string>)

  predicate IsSlash(c: char) { c == '/' }

  function DropSlashes(s: string): string { TrimRight(s, IsSlash) }

  function RowPath(row: string): string { Strip(NormalizeRelpath(row)) }

  predicate NamesDirectory(row: string) { EndsWith(Slashed(row), "/") }

  function DefaultPaths(): set<string> {
    (set p | p in SUPERVISOR_OWNED + RUNTIME_FILES :: NormalizeRelpath(p)) + {"pytest.ini"}
  }

  function DefaultPrefixes(): set<string> { {"tests/", SUPERVISOR_PREFIX} + RUNTIME_PREFIXES }

  function RowPaths(rows: seq<string>): set<string> {
    set row | row in rows && RowPath(row) != "" && !NamesDirectory(row) :: RowPath(row)
  }

  function RowPrefixes(rows: seq<string>): set<string> {
    set row | row in rows && RowPath(row) != "" && NamesDirectory(row) :: DropSlashes(RowPath(row)) + "/"
  }

  function TestDirPrefixes(dirs: seq<string>): set<string> {
    set dir | dir in dirs && DropSlashes(NormalizeRelpath(dir)) != "" :: DropSlashes(NormalizeRelpath(dir)) + "/"
  }

  function BlockedPaths(config: SafetyConfig): set<string> {
    DefaultPaths() + if config.Config? then RowPaths(config.protectedRows) else {}
  }

  function BlockedPrefixes(config: SafetyConfig): set<string> {
    DefaultPrefixes()
    + if config.Config? then TestDirPrefixes(config.testDirs) + RowPrefixes(config.protectedRows) else {}
  }

  /** `_load_agent_safety_paths`. */
  method LoadAgentSafetyPaths(config: SafetyConfig) returns (paths: set<string>, prefixes: seq<string>)
    ensures paths == BlockedPaths(config) && prefixes == SortedKeys(BlockedPrefixes(config))
  {
    hide RowPath, NamesDirectory, DropSlashes, NormalizeRelpath, DefaultPaths, DefaultPrefixes;
    paths := DefaultPaths();
    var under := DefaultPrefixes();
    if config.Config? {
      var dirs, rows := config.testDirs, config.protectedRows;
      for i := 0 to |dirs|
        invariant under == DefaultPrefixes() + TestDirPrefixes(dirs[..i])
      {
        assert dirs[..i + 1] == dirs[..i] + [dirs[i]];
        var norm := DropSlashes(NormalizeRelpath(dirs[i]));
        if norm != "" {
          under := under + {norm + "/"};
        }
      }
      assert dirs[..|dirs|] == dirs;
      for i := 0 to |rows|
        invariant under == DefaultPrefixes() + TestDirPrefixes(dirs) + RowPrefixes(rows[..i])
        invariant paths == DefaultPaths() + RowPaths(rows[..i])
      {
        assert rows[..i + 1] == rows[..i] + [rows[i]];
        var norm := RowPath(rows[i]);
        if norm == "" {
          continue;
        }
        if NamesDirectory(rows[i]) {
          under := under + {DropSlashes(norm) + "/"};
        } else {
          paths := paths + {norm};
        }
      }
      assert rows[..|rows|] == rows;
    }
    assert under == BlockedPrefixes(config) && paths == BlockedPaths(config);
    prefixes := SortedKeys(under);
  }

  /** Whatever the configuration says, it can only guard more than the built-in defaults. */
  lemma DefaultsStayGuarded(config: SafetyConfig)
    ensures DefaultPaths() <= BlockedPaths(config)
    ensures forall p :: p in DefaultPrefixes() ==> p in SortedKeys(BlockedPrefixes(config))
  {
    hide DefaultPaths, DefaultPrefixes;
  }

  predicate IsTestInfra(rel: string, prefixes: seq<string>) {
    var norm := NormalizeRelpath(rel);
    || PathName(norm) == "conftest.py"
    || norm == "pytest.ini"
    || exists k :: 0 <= k < |prefixes| && prefixes[k] <= norm
            && prefixes[k] !in {LOOP_PREFIX, SUPERVISOR_PREFIX} + RUNTIME_PREFIXES
  }

  predicate IsRuntimeProtected(rel: string) {
    var norm := NormalizeRelpath(rel);
    norm in RUNTIME_FILES || exists p :: p in RUNTIME_PREFIXES && p <= norm
  }

  predicate IsNonPython(rel: string) {
    var norm := NormalizeRelpath(rel);
    norm != "" && !EndsWith(norm, ".py")
  }

  // ---------------------------------------------------------------- what a delta may not touch

  predicate InLoopPackage(norm: string) { LOOP_PREFIX <= norm }

  predicate InSupervisorPackage(norm: string) { SUPERVISOR_PREFIX <= norm }

  predicate Protected(rel: string, paths: set<string>) {
    NormalizeRelpath(rel) in paths || IsRuntimeProtected(NormalizeRelpath(rel))
  }

  predicate NewLoopFile(rel: string, added: seq<string>) {
    var norm := NormalizeRelpath(rel);
    norm in added && InLoopPackage(norm) && EndsWith(norm, ".py")
  }

  function PathFindings(rel: string, added: seq<string>, paths: set<string>, prefixes: seq<string>): seq<Finding> {
    var norm := NormalizeRelpath(rel);
    (if Protected(rel, paths) then [Finding(ProtectedPathChanged, Reject, norm)] else [])
    + (if IsTestInfra(norm, prefixes) then [Finding(TestInfraChanged, Reject, norm)] else [])
    + (if NewLoopFile(rel, added) then [Finding(LoopPackageNewFile, Reject, norm)] else [])
    + (if InSupervisorPackage(norm) then [Finding(SupervisorPackageChanged, Reject, norm)] else [])
  }

  /** Changing this path is forbidden outright. */
  predicate Forbidden(rel: string, added: seq<string>, paths: set<string>, prefixes: seq<string>) {
    || Protected(rel, paths) || IsTestInfra(NormalizeRelpath(rel), prefixes)
    || NewLoopFile(rel, added) || InSupervisorPackage(NormalizeRelpath(rel))
  }

  /** Changing this path needs a human: it is forbidden, part of the loop package, or not Python. */
  predicate Risky(rel: string, added: seq<string>, paths: set<string>, prefixes: seq<string>) {
    Forbidden(rel, added, paths, prefixes) || InLoopPackage(NormalizeRelpath(rel)) || IsNonPython(NormalizeRelpath(rel))
  }

  function StaticFindings(changed: seq<string>, added: seq<string>, paths: set<string>,
      prefixes: seq<string>): seq<Finding> {
    if changed == [] then []
    else
      var n := |changed| - 1;
      StaticFindings(changed[..n], added, paths, prefixes) + PathFindings(changed[n], added, paths, prefixes)
  }

  predicate AnyRisky(changed: seq<string>, added: seq<string>, paths: set<string>, prefixes: seq<string>) {
    exists i :: 0 <= i < |changed| && Risky(changed[i], added, paths, prefixes)
  }

  function StaticFloor(changed: seq<string>, added: seq<string>, paths: set<string>, prefixes: seq<string>): string {
    if AnyRisky(changed, added, paths, prefixes) then CRITICAL else "low"
  }

  lemma MaxWithCritical(floor: string)
    ensures MaxRisk(floor, CRITICAL) == CRITICAL == RiskKey(CRITICAL)
  {
    hide RiskKey, MaxRisk;
    RiskKeyOfCritical();
    MaxRiskCriticalIff(floor, CRITICAL);
  }

  /** The body of the loop in `_static_policy_findings`. */
  method JudgePath(rel: string, added: seq<string>, paths: set<string>, prefixes: seq<string>, before: seq<Finding>,
      floor: string)
    returns (findings: seq<Finding>, riskFloor: string)
    ensures findings == before + PathFindings(rel, added, paths, prefixes)
    ensures riskFloor == if Risky(rel, added, paths, prefixes) then CRITICAL else floor
  {
    hide NormalizeRelpath, Protected, IsTestInfra, NewLoopFile, IsNonPython, InLoopPackage, InSupervisorPackage,
        MaxRisk, Forbidden, Risky, PathFindings;
    var norm := NormalizeRelpath(rel);
    RiskyIff(rel, added, paths, prefixes);
    PathFindingsAre(rel, before, added, paths, prefixes);
    MaxWithCritical(floor);
    MaxWithCritical(CRITICAL);
    findings, riskFloor := before, floor;
    if Protected(rel, paths) {
      findings := findings + [Finding(ProtectedPathChanged, Reject, norm)];
      riskFloor := MaxRisk(riskFloor, CRITICAL);
    }
    if IsTestInfra(norm, prefixes) {
      findings := findings + [Finding(TestInfraChanged, Reject, norm)];
      riskFloor := MaxRisk(riskFloor, CRITICAL);
    }
    if InLoopPackage(norm) {
      riskFloor := MaxRisk(riskFloor, CRITICAL);
    }
    if NewLoopFile(rel, added) {
      findings := findings + [Finding(LoopPackageNewFile, Reject, norm)];
      riskFloor := MaxRisk(riskFloor, CRITICAL);
    }
    if InSupervisorPackage(norm) {
      findings := findings + [Finding(SupervisorPackageChanged, Reject, norm)];
      riskFloor := MaxRisk(riskFloor, CRITICAL);
    }
    if IsNonPython(norm) {
      riskFloor := MaxRisk(riskFloor, CRITICAL);
    }
  }

  /** `_static_policy_findings`. */
  method StaticPolicyFindings(delta: TreeDelta.Delta, paths: set<string>, prefixes: seq<string>)
    returns (findings: seq<Finding>, riskFloor: string)
    ensures findings == StaticFindings(delta.ChangedFiles(), delta.added, paths, prefixes)
    ensures riskFloor == StaticFloor(delta.ChangedFiles(), delta.added, paths, prefixes)
  {
    hide Risky, PathFindings, StaticFloor;
    var changed := delta.ChangedFiles();
    findings, riskFloor := [], "low";
    NothingIsRisky(delta.added, paths, prefixes);
    assert changed[..0] == [];
    for i := 0 to |changed|
      invariant findings == StaticFindings(changed[..i], delta.added, paths, prefixes)
      invariant riskFloor == StaticFloor(changed[..i], delta.added, paths, prefixes)
    {
      StaticFloorStep(changed, i, delta.added, paths, prefixes);
      assert changed[..i + 1][..i] == changed[..i];
      findings, riskFloor := JudgePath(changed[i], delta.added, paths, prefixes, findings, riskFloor);
    }
    assert changed[..|changed|] == changed;
  }

  lemma NothingIsRisky(added: seq<string>, paths: set<string>, prefixes: seq<string>)
    ensures StaticFloor([], added, paths, prefixes) == "low"
  {
  }

  lemma StaticFloorStep(changed: seq<string>, i: nat, added: seq<string>, paths: set<string>, prefixes: seq<string>)
    requires i < |changed|
    ensures StaticFloor(changed[..i + 1], added, paths, prefixes)
            == if Risky(changed[i], added, paths, prefixes) then CRITICAL
               else StaticFloor(changed[..i], added, paths, prefixes)
  {
    hide Risky, AnyRisky;
    AnyRiskyStep(changed, i, added, paths, prefixes);
  }

  lemma RiskyIff(rel: string, added: seq<string>, paths: set<string>, prefixes: seq<string>)
    ensures var norm := NormalizeRelpath(rel);
            Risky(rel, added, paths, prefixes)
            <==> Protected(rel, paths) || IsTestInfra(norm, prefixes) || InLoopPackage(norm) || NewLoopFile(rel, added)
                 || InSupervisorPackage(norm) || IsNonPython(norm)
  {
  }

  /** Each of the four findings about a path is there exactly for its own reason, and no other is. */
  lemma PathFindingsIff(rel: string, added: seq<string>, paths: set<string>, prefixes: seq<string>)
    ensures var norm := NormalizeRelpath(rel); var found := PathFindings(rel, added, paths, prefixes);
            && (Finding(ProtectedPathChanged, Reject, norm) in found <==> Protected(rel, paths))
            && (Finding(TestInfraChanged, Reject, norm) in found <==> IsTestInfra(norm, prefixes))
            && (Finding(LoopPackageNewFile, Reject, norm) in found <==> NewLoopFile(rel, added))
            && (Finding(SupervisorPackageChanged, Reject, norm) in found <==> InSupervisorPackage(norm))
            && forall f :: f in found ==>
                 f.severity.Reject? && f.path == norm
                 && f.code in {ProtectedPathChanged, TestInfraChanged, LoopPackageNewFile, SupervisorPackageChanged}
  {
    hide NormalizeRelpath, Protected, IsTestInfra, NewLoopFile, InSupervisorPackage;
  }

  lemma PathFindingsAre(rel: string, before: seq<Finding>, added: seq<string>, paths: set<string>,
      prefixes: seq<string>)
    ensures var norm := NormalizeRelpath(rel);
            var a := if Protected(rel, paths) then before + [Finding(ProtectedPathChanged, Reject, norm)] else before;
            var b := if IsTestInfra(norm, prefixes) then a + [Finding(TestInfraChanged, Reject, norm)] else a;
            var c := if NewLoopFile(rel, added) then b + [Finding(LoopPackageNewFile, Reject, norm)] else b;
            before + PathFindings(rel, added, paths, prefixes)
            == if InSupervisorPackage(norm) then c + [Finding(SupervisorPackageChanged, Reject, norm)] else c
  {
    hide NormalizeRelpath, Protected, IsTestInfra, NewLoopFile, InSupervisorPackage;
  }

  lemma AnyRiskyStep(changed: seq<string>, i: nat, added: seq<string>, paths: set<string>, prefixes: seq<string>)
    requires i < |changed|
    ensures AnyRisky(changed[..i + 1], added, paths, prefixes)
            <==> AnyRisky(changed[..i], added, paths, prefixes) || Risky(changed[i], added, paths, prefixes)
  {
    hide Risky;
    if AnyRisky(changed[..i], added, paths, prefixes) {
      var k :| 0 <= k < i && Risky(changed[..i][k], added, paths, prefixes);
      assert changed[..i + 1][k] == changed[k];
    }
    assert changed[..i + 1][i] == changed[i];
  }

  /** The delta draws no static finding exactly when no changed path is forbidden. */
  lemma {:induction false} StaticFindingsEmptyIff(changed: seq<string>, added: seq<string>, paths: set<string>,
      prefixes: seq<string>)
    ensures StaticFindings(changed, added, paths, prefixes) == []
            <==> forall i :: 0 <= i < |changed| ==> !Forbidden(changed[i], added, paths, prefixes)
    ensures forall f :: f in StaticFindings(changed, added, paths, prefixes) ==> f.severity.Reject?
  {
    hide PathFindings, Forbidden;
    if changed != [] {
      var n := |changed| - 1;
      StaticFindingsEmptyIff(changed[..n], added, paths, prefixes);
      PathFindingsEmptyIff(changed[n], added, paths, prefixes);
      assert forall i :: 0 <= i < n ==> changed[..n][i] == changed[i];
    }
  }

  lemma PathFindingsEmptyIff(rel: string, added: seq<string>, paths: set<string>, prefixes: seq<string>)
    ensures PathFindings(rel, added, paths, prefixes) == [] <==> !Forbidden(rel, added, paths, prefixes)
    ensures forall f :: f in PathFindings(rel, added, paths, prefixes) ==> f.severity.Reject?
  {
    hide NormalizeRelpath, IsRuntimeProtected, IsTestInfra, IsNonPython, NewLoopFile, Protected, InSupervisorPackage;
  }

  // ---------------------------------------------------------------- the verdict

  datatype Verdict = Verdict(ok: bool, riskFloor: string, delta: TreeDelta.Delta, findings: seq<Finding>,
                             ignoredSessionKeys: seq<string>)

  /** What an evaluation looks at besides the delta: the caller's claims, the guarded paths, the
      corpus findings, what the verification floor would answer, and the session's keys. */
  datatype Evidence = Evidence(
    claimedCategory: string, claimedRisk: string,
    paths: set<string>, prefixes: seq<string>,
    corpusFindings: seq<Finding>, floorFailures: seq<string>, sessionKeys: set<string>)

  function FloorFindings(failures: seq<string>): seq<Finding> {
    seq(|failures|, i => Finding(VerificationFloorMissing, Reject, ""))
  }

  predicate ClaimsMeta(e: Evidence) { Lower(e.claimedCategory) == "meta" }

  /** The findings made before the verification floor is consulted. */
  function FirstFindings(delta: TreeDelta.Delta, e: Evidence): seq<Finding> {
    (if delta.ChangedFiles() == [] then [Finding(NoRederivedChanges, Reject, "")] else [])
    + e.corpusFindings
    + StaticFindings(delta.ChangedFiles(), delta.added, e.paths, e.prefixes)
  }

  /** What makes the risk floor critical. */
  ghost predicate Critical(delta: TreeDelta.Delta, e: Evidence) {
    || RiskKey(e.claimedRisk) == CRITICAL || ClaimsMeta(e) || e.corpusFindings != []
    || AnyRisky(delta.ChangedFiles(), delta.added, e.paths, e.prefixes)
    || (FirstFindings(delta, e) == [] && e.floorFailures != [])
  }

  /** The verdict a delta deserves: every finding counts against it, the verification floor is
      asked only of an otherwise clean delta, and the floor is critical for the listed causes, and
      otherwise the claimed one, lower-cased, "low" if none is claimed. */
  ghost predicate Judged(v: Verdict, delta: TreeDelta.Delta, e: Evidence) {
    && v.delta == delta && v.ignoredSessionKeys == SortedKeys(e.sessionKeys)
    && (v.ok <==> v.findings == [])
    && v.findings == FirstFindings(delta, e)
                     + (if FirstFindings(delta, e) == [] then FloorFindings(e.floorFailures) else [])
    && (v.riskFloor == CRITICAL <==> Critical(delta, e))
    && (!Critical(delta, e) ==> v.riskFloor == Lower(if e.claimedRisk == "" then "low" else e.claimedRisk))
  }

  /** `evaluate_candidate`, from the re-derived delta on. */
  method EvaluateCandidate(delta: TreeDelta.Delta, e: Evidence) returns (v: Verdict)
    requires forall f :: f in e.corpusFindings ==> f.severity.Reject?
    ensures Judged(v, delta, e)
  {
    hide StaticFindings, AnyRisky, MaxRisk, ClaimsMeta, RiskKey, StaticFloor, AnyRejects, FloorFindings, SortedKeys;
    var changed := delta.ChangedFiles();
    var findings: seq<Finding> := [];
    var riskFloor := RiskKey(e.claimedRisk);
    RiskKeyIdempotent(e.claimedRisk);
    if changed == [] {
      findings := findings + [Finding(NoRederivedChanges, Reject, "")];
    }
    if ClaimsMeta(e) {
      MaxWithCritical(riskFloor);
      riskFloor := MaxRisk(riskFloor, CRITICAL);
    }
    if e.corpusFindings != [] {
      findings := findings + e.corpusFindings;
      MaxWithCritical(riskFloor);
      riskFloor := MaxRisk(riskFloor, CRITICAL);
    }
    var staticFindings, staticFloor := StaticPolicyFindings(delta, e.paths, e.prefixes);
    FloorSoFar(riskFloor, delta, e);
    riskFloor := MaxRisk(riskFloor, staticFloor);
    if staticFindings != [] {
      findings := findings + staticFindings;
    }
    assert findings == FirstFindings(delta, e);
    FirstFindingsReject(delta, e);
    if !AnyRejects(findings) {
      var floorFindings := FloorFindings(e.floorFailures);
      FloorFindingsReject(e.floorFailures);
      if floorFindings != [] {
        findings := findings + floorFindings;
        MaxWithCritical(riskFloor);
        riskFloor := MaxRisk(riskFloor, CRITICAL);
      }
    }
    v := Verdict(!AnyRejects(findings), riskFloor, delta, findings, SortedKeys(e.sessionKeys));
  }

  /** The floor once the static policy has been asked. */
  lemma FloorSoFar(floor: string, delta: TreeDelta.Delta, e: Evidence)
    requires floor == if ClaimsMeta(e) || e.corpusFindings != [] then CRITICAL else RiskKey(e.claimedRisk)
    ensures var changed := delta.ChangedFiles();
            var after := MaxRisk(floor, StaticFloor(changed, delta.added, e.paths, e.prefixes));
            && (after == CRITICAL <==> || RiskKey(e.claimedRisk) == CRITICAL || ClaimsMeta(e) || e.corpusFindings != []
                                       || AnyRisky(changed, delta.added, e.paths, e.prefixes))
            && (after != CRITICAL ==> after == Lower(if e.claimedRisk == "" then "low" else e.claimedRisk))
  {
    hide AnyRisky, MaxRisk, ClaimsMeta, RiskKey, StaticFloor;
    var changed := delta.ChangedFiles();
    RiskKeyIdempotent(e.claimedRisk);
    RiskKeyOfCritical();
    MaxWithStatic(floor, changed, delta.added, e.paths, e.prefixes);
    ClaimedFloor(e.claimedRisk);
    StaticFloorIff(changed, delta.added, e.paths, e.prefixes);
    MaxRiskCriticalIff(floor, StaticFloor(changed, delta.added, e.paths, e.prefixes));
  }

  lemma MaxWithStatic(floor: string, changed: seq<string>, added: seq<string>, paths: set<string>,
      prefixes: seq<string>)
    ensures !AnyRisky(changed, added, paths, prefixes) ==>
              MaxRisk(floor, StaticFloor(changed, added, paths, prefixes)) == RiskKey(floor)
  {
    hide AnyRisky, RiskKey;
    RiskKeyOfCritical();
  }

  lemma ClaimedFloor(risk: string)
    ensures RiskKey(risk) == Lower(if risk == "" then "low" else risk)
  {
  }

  lemma FirstFindingsReject(delta: TreeDelta.Delta, e: Evidence)
    requires forall f :: f in e.corpusFindings ==> f.severity.Reject?
    ensures AnyRejects(FirstFindings(delta, e)) <==> FirstFindings(delta, e) != []
  {
    hide StaticFindings, AnyRejects;
    StaticFindingsEmptyIff(delta.ChangedFiles(), delta.added, e.paths, e.prefixes);
    AllReject(FirstFindings(delta, e));
  }

  lemma FloorFindingsReject(failures: seq<string>)
    ensures AnyRejects(FloorFindings(failures)) <==> FloorFindings(failures) != []
    ensures FloorFindings(failures) == [] <==> failures == []
    ensures [] + FloorFindings(failures) == FloorFindings(failures)
  {
    AllReject(FloorFindings(failures));
  }

  lemma StaticFloorIff(changed: seq<string>, added: seq<string>, paths: set<string>, prefixes: seq<string>)
    ensures RiskKey(StaticFloor(changed, added, paths, prefixes)) == CRITICAL
            <==> AnyRisky(changed, added, paths, prefixes)
  {
    hide AnyRisky, RiskKey;
    RiskKeyOfCritical();
  }

  lemma AllReject(findings: seq<Finding>)
    requires forall f :: f in findings ==> f.severity.Reject?
    ensures AnyRejects(findings) <==> findings != []
  {
    if findings != [] { assert findings[0] in findings; }
  }

  /** A candidate is accepted exactly when it changes something, the corpus is clean, it touches
      no forbidden path, and the verification floor has no complaint. */
  lemma AcceptedIff(v: Verdict, delta: TreeDelta.Delta, e: Evidence)
    requires Judged(v, delta, e)
    ensures v.ok <==> delta.ChangedFiles() != [] && e.corpusFindings == [] && e.floorFailures == []
                      && forall rel :: rel in delta.ChangedFiles() ==> !Forbidden(rel, delta.added, e.paths, e.prefixes)
  {
    hide StaticFindings, Forbidden, Critical, FloorFindings, SortedKeys;
    var changed := delta.ChangedFiles();
    StaticFindingsEmptyIff(changed, delta.added, e.paths, e.prefixes);
    FloorFindingsReject(e.floorFailures);
    assert (forall rel :: rel in changed ==> !Forbidden(rel, delta.added, e.paths, e.prefixes))
           <==> forall i :: 0 <= i < |changed| ==> !Forbidden(changed[i], delta.added, e.paths, e.prefixes);
  }

  /** A candidate is rejected with a floor below critical exactly when it changes nothing and nothing
      else speaks for a critical one. */
  lemma RejectedBelowCriticalIff(v: Verdict, delta: TreeDelta.Delta, e: Evidence)
    requires Judged(v, delta, e)
    ensures !v.ok && v.riskFloor != CRITICAL
            <==> delta.ChangedFiles() == [] && e.corpusFindings == []
                 && RiskKey(e.claimedRisk) != CRITICAL && !ClaimsMeta(e)
  {
    hide Forbidden, RiskKey, ClaimsMeta, SortedKeys, StaticFindings, Risky;
    var changed := delta.ChangedFiles();
    StaticFindingsEmptyIff(changed, delta.added, e.paths, e.prefixes);
    forall i | 0 <= i < |changed|
      ensures Forbidden(changed[i], delta.added, e.paths, e.prefixes) ==>
                Risky(changed[i], delta.added, e.paths, e.prefixes)
    {
      ForbiddenIsRisky(changed[i], delta.added, e.paths, e.prefixes);
    }
  }

  lemma ForbiddenIsRisky(rel: string, added: seq<string>, paths: set<string>, prefixes: seq<string>)
    ensures Forbidden(rel, added, paths, prefixes) ==> Risky(rel, added, paths, prefixes)
  {
  }

  /** Paths under these directories, these files and every conftest.py are forbidden whatever the
      configuration adds. */
  predicate GuardedByDefault(rel: string) {
    var norm := NormalizeRelpath(rel);
    || "tests/" <= norm || InSupervisorPackage(norm) || (exists p :: p in RUNTIME_PREFIXES && p <= norm)
    || norm in DefaultPaths() || PathName(norm) == "conftest.py"
  }

  lemma GuardedIsForbidden(rel: string, added: seq<string>, config: SafetyConfig)
    requires GuardedByDefault(rel)
    ensures Forbidden(rel, added, BlockedPaths(config), SortedKeys(BlockedPrefixes(config)))
  {
    hide DefaultPaths, BlockedPaths, BlockedPrefixes, NewLoopFile, NormalizeRelpath, SortedKeys, PathName;
    var norm, prefixes := NormalizeRelpath(rel), SortedKeys(BlockedPrefixes(config));
    NormalizeIdempotent(rel);
    DefaultsStayGuarded(config);
    if "tests/" <= norm {
      assert "tests/" in DefaultPrefixes();
      var k :| 0 <= k < |prefixes| && prefixes[k] == "tests/";
      assert "tests/" !in {LOOP_PREFIX, SUPERVISOR_PREFIX} + RUNTIME_PREFIXES by { TestsIsNoOther(); }
      assert IsTestInfra(norm, prefixes);
    }
  }

  lemma TestsIsNoOther()
    ensures "tests/" !in {LOOP_PREFIX, SUPERVISOR_PREFIX} + RUNTIME_PREFIXES
  {
    var t := "tests/";
    assert |t| == 6 && t[0] == 't' && t[1] == 'e';
    forall p | p in {LOOP_PREFIX, SUPERVISOR_PREFIX} + RUNTIME_PREFIXES ensures |p| > 6 {
    }
  }

  /** The directory prefix a protected row stands for. */
  function RowPrefix(row: string): string { DropSlashes(RowPath(row)) + "/" }

  /** A protected row of the configuration forbids the file it names, or every path below the
      directory it names, unless that directory is the loop package. */
  lemma ConfiguredRowForbids(rel: string, added: seq<string>, config: SafetyConfig, row: string)
    requires config.Config? && row in config.protectedRows && RowPath(row) != ""
    requires if NamesDirectory(row) then RowPrefix(row) <= NormalizeRelpath(rel) && RowPrefix(row) != LOOP_PREFIX
             else NormalizeRelpath(rel) == RowPath(row)
    ensures Forbidden(rel, added, BlockedPaths(config), SortedKeys(BlockedPrefixes(config)))
  {
    hide DefaultPaths, DefaultPrefixes, NewLoopFile, NormalizeRelpath, SortedKeys, PathName, DropSlashes, RowPath,
        NamesDirectory;
    var norm, prefix, prefixes := NormalizeRelpath(rel), RowPrefix(row), SortedKeys(BlockedPrefixes(config));
    NormalizeIdempotent(rel);
    if NamesDirectory(row) {
      assert prefix in RowPrefixes(config.protectedRows);
      var k :| 0 <= k < |prefixes| && prefixes[k] == prefix;
      assert prefix in {SUPERVISOR_PREFIX} + RUNTIME_PREFIXES || IsTestInfra(norm, prefixes);
    } else {
      assert norm in RowPaths(config.protectedRows);
    }
  }

  /** A row that protects the loop package as a directory forbids nothing that was not forbidden
      without it: that package is only ever held for a human. */
  lemma LoopDirectoryRowForbidsNothing(rel: string, added: seq<string>, dirs: seq<string>, rows: seq<string>,
      row: string)
    requires NamesDirectory(row) && RowPrefix(row) == LOOP_PREFIX
    ensures var with, without := Config(dirs, rows + [row]), Config(dirs, rows);
            Forbidden(rel, added, BlockedPaths(with), SortedKeys(BlockedPrefixes(with)))
            <==> Forbidden(rel, added, BlockedPaths(without), SortedKeys(BlockedPrefixes(without)))
  {
    hide DefaultPaths, DefaultPrefixes, NewLoopFile, NormalizeRelpath, SortedKeys, PathName, DropSlashes, RowPath,
        NamesDirectory, IsRuntimeProtected;
    var with, without := Config(dirs, rows + [row]), Config(dirs, rows);
    assert BlockedPaths(with) == BlockedPaths(without);
    assert BlockedPrefixes(with) - {LOOP_PREFIX} == BlockedPrefixes(without) - {LOOP_PREFIX};
    TestInfraIff(NormalizeRelpath(rel), BlockedPrefixes(with));
    TestInfraIff(NormalizeRelpath(rel), BlockedPrefixes(without));
  }

  /** A configured test directory forbids every path below it, unless it names the loop package. */
  lemma ConfiguredTestDirForbids(rel: string, added: seq<string>, config: SafetyConfig, dir: string)
    requires config.Config? && dir in config.testDirs
    requires var norm := DropSlashes(NormalizeRelpath(dir));
             norm != "" && norm + "/" <= NormalizeRelpath(rel) && norm + "/" != LOOP_PREFIX
    ensures Forbidden(rel, added, BlockedPaths(config), SortedKeys(BlockedPrefixes(config)))
  {
    hide DefaultPaths, DefaultPrefixes, NewLoopFile, NormalizeRelpath, SortedKeys, PathName, DropSlashes, RowPaths,
        RowPrefixes;
    var norm, prefixes := NormalizeRelpath(rel), SortedKeys(BlockedPrefixes(config));
    var prefix := DropSlashes(NormalizeRelpath(dir)) + "/";
    NormalizeIdempotent(rel);
    assert prefix in TestDirPrefixes(config.testDirs);
    var k :| 0 <= k < |prefixes| && prefixes[k] == prefix;
    assert prefix in {SUPERVISOR_PREFIX} + RUNTIME_PREFIXES || IsTestInfra(norm, prefixes);
  }

  /** A new Python file in the loop package is forbidden under any configuration, and a changed one there,
      like any file that is not Python, is risky. */
  lemma LoopFilesAreWatched(rel: string, added: seq<string>, paths: set<string>, prefixes: seq<string>)
    ensures var norm := NormalizeRelpath(rel);
            && (norm in added && "thomas/forge/anvil/" <= norm && EndsWith(norm, ".py") ==>
                    Forbidden(rel, added, paths, prefixes))
            && ("thomas/forge/anvil/" <= norm || (norm != "" && !EndsWith(norm, ".py")) ==>
                    Risky(rel, added, paths, prefixes))
  {
    hide NormalizeRelpath;
    NormalizeIdempotent(rel);
  }

  lemma TestInfraIff(rel: string, prefixes: set<string>)
    ensures var norm := NormalizeRelpath(rel);
            IsTestInfra(rel, SortedKeys(prefixes))
            <==> PathName(norm) == "conftest.py" || norm == "pytest.ini"
                 || exists p :: p in prefixes - {LOOP_PREFIX} && p <= norm
                         && p !in {LOOP_PREFIX, SUPERVISOR_PREFIX} + RUNTIME_PREFIXES
  {
    hide NormalizeRelpath, SortedKeys, PathName;
    var sorted := SortedKeys(prefixes);
    assert forall p :: p in sorted <==> p in prefixes;
  }
}
