/** From two working trees to a promotion: the supervisor's verdict goes into the session record,
    and the decision reads it back (`evolve_supervisor/corpus_runner.py` runs the same chain). */
module PromotionSafety {
  import opened Strings
  import opened RelPaths
  import opened CandidatePolicy
  import opened PromotionDecision
  import SupervisorFindings
  import TreeDelta
  import CorpusLock
  import VerifierPanel

  function Codes(findings: seq<SupervisorFindings.Finding>): set<SupervisorFindings.Code> {
    set f | f in findings :: f.code
  }

  /** `verdict.to_dict()`, as far as the session's readers look. */
  function RecordOf(v: Verdict): Recorded {
    Recorded(if v.ok then IsTrue else IsFalse, v.riskFloor, v.delta.ChangedFiles(), Codes(v.findings))
  }

  /** The session with the verdict written into it. */
  function WithVerdict(s: Session, v: Verdict): Session { s.(verdict := Some(RecordOf(v))) }

  lemma FloorOfCritical()
    ensures FloorText(CRITICAL) == CRITICAL
  {
    hide Lower, Strip, IsSpace;
    assert !IsSpace('c') && !IsSpace('l') by { PlainLetters(); }
    StripFixed(CRITICAL);
    LowerFixed(CRITICAL);
  }

  lemma PlainLetters()
    ensures !IsSpace('c') && !IsSpace('l') && !IsSpace('h')
  {
  }

  /** For every posture, claimed risk, verifier and whatever else the session says: a verdict that
      is not ok is rejected, and a critical floor is never promoted. */
  lemma VerdictBinds(s: Session, v: Verdict, posture: Posture, riskTier: string, verifier: Verifier)
    ensures !v.ok ==> DecideForSession(posture, WithVerdict(s, v), riskTier, verifier).action == Reject
    ensures v.riskFloor == CRITICAL ==>
            DecideForSession(posture, WithVerdict(s, v), riskTier, verifier).action != Promote
  {
    hide DecideForSession, SessionRiskFloor, FloorText, Codes;
    var t := WithVerdict(s, v);
    VerdictAndFloorBind(posture, t, riskTier, verifier);
    if v.riskFloor == CRITICAL {
      FloorOfCritical();
      FloorCriticalIffNeedsHuman(t);
    }
  }

  /** What must be true of a candidate that gets promoted without asking anyone. */
  ghost predicate Ordinary(delta: TreeDelta.Delta, e: Evidence) {
    && delta.ChangedFiles() != [] && e.corpusFindings == [] && e.floorFailures == []
    && RiskKey(e.claimedRisk) != CRITICAL && !ClaimsMeta(e)
    && forall rel :: rel in delta.ChangedFiles() ==> !Risky(rel, delta.added, e.paths, e.prefixes)
  }

  /** Only ordinary candidates are ever promoted, and only in verified sessions. */
  lemma PromotedIsOrdinary(s: Session, v: Verdict, delta: TreeDelta.Delta, e: Evidence, posture: Posture,
      riskTier: string, verifier: Verifier)
    requires Judged(v, delta, e)
    requires DecideForSession(posture, WithVerdict(s, v), riskTier, verifier).action == Promote
    ensures v.ok && Ordinary(delta, e) && VerifiedSession(WithVerdict(s, v))
    ensures AutoPromotable(posture, EffectiveTier(WithVerdict(s, v), riskTier))
  {
    hide DecideForSession, SessionRiskFloor, HumanHoldReason, Forbidden, Risky, StaticFindings, WithVerdict, RiskKey,
        ClaimsMeta, NeedsHuman, FloorFindings;
    VerdictBinds(s, v, posture, riskTier, verifier);
    AcceptedIff(v, delta, e);
    PromotedIff(posture, WithVerdict(s, v), riskTier, verifier);
    var changed := delta.ChangedFiles();
    forall rel | rel in changed ensures !Risky(rel, delta.added, e.paths, e.prefixes) {
      var i :| 0 <= i < |changed| && changed[i] == rel;
    }
  }

  /** A candidate that touches a forbidden path is always rejected. */
  lemma ForbiddenAlwaysRejected(s: Session, v: Verdict, delta: TreeDelta.Delta, e: Evidence, rel: string,
      posture: Posture, riskTier: string, verifier: Verifier)
    requires Judged(v, delta, e)
    requires rel in delta.ChangedFiles() && Forbidden(rel, delta.added, e.paths, e.prefixes)
    ensures DecideForSession(posture, WithVerdict(s, v), riskTier, verifier).action == Reject
  {
    hide DecideForSession, Forbidden, Judged, WithVerdict;
    AcceptedIff(v, delta, e);
    VerdictBinds(s, v, posture, riskTier, verifier);
  }

  /** A candidate that touches the loop package or any file that is not Python is never promoted. */
  lemma RiskyNeverPromoted(s: Session, v: Verdict, delta: TreeDelta.Delta, e: Evidence, rel: string, posture: Posture,
      riskTier: string, verifier: Verifier)
    requires Judged(v, delta, e)
    requires rel in delta.ChangedFiles() && Risky(rel, delta.added, e.paths, e.prefixes)
    ensures DecideForSession(posture, WithVerdict(s, v), riskTier, verifier).action != Promote
  {
    hide DecideForSession, Risky, Judged, WithVerdict;
    if DecideForSession(posture, WithVerdict(s, v), riskTier, verifier).action == Promote {
      PromotedIsOrdinary(s, v, delta, e, posture, riskTier, verifier);
    }
  }

  /** The auto-safe posture promotes a candidate with claimed risk "high" only if the session names a low or
      medium floor of its own, which outranks the supervisor's; a session that names none holds it. */
  lemma HighRiskNeedsOwnFloor(s: Session, v: Verdict, delta: TreeDelta.Delta, e: Evidence, riskTier: string,
      verifier: Verifier)
    requires Judged(v, delta, e) && Lower(e.claimedRisk) == "high"
    requires DecideForSession(AutoSafe, WithVerdict(s, v), riskTier, verifier).action == Promote
    ensures Lower(Strip(s.riskFloor)) == "low" || Lower(Strip(s.riskFloor)) == "medium"
  {
    hide DecideForSession, Codes, StaticFindings, AnyRisky;
    var t := WithVerdict(s, v);
    VerdictBinds(s, v, AutoSafe, riskTier, verifier);
    assert v.riskFloor == Lower(e.claimedRisk) == "high";
    hide Judged, WithVerdict;
    FloorOfHigh();
    AutoSafeOnlyUpToMedium(t, riskTier, verifier);
    hide Strip;
    var own := Lower(Strip(s.riskFloor));
    assert t.riskFloor == s.riskFloor && t.verdict.Some? && t.verdict.value.riskFloor == "high" by { VerdictIn(s, v); }
    LowerIdempotent(Strip(s.riskFloor));
    assert own != "";
  }

  lemma VerdictIn(s: Session, v: Verdict)
    ensures var t := WithVerdict(s, v);
            t.riskFloor == s.riskFloor && t.verdict.Some? && t.verdict.value.riskFloor == v.riskFloor
  {
  }

  lemma FloorOfHigh()
    ensures Lower(Strip("high")) == "high" && Lower("high") == "high"
  {
    hide Lower, Strip, IsSpace;
    assert !IsSpace('h') by { PlainLetters(); }
    StripFixed("high");
    LowerFixed("high");
  }

  /** What the supervisor found at the exam reaches the panel: its reward-hack role dissents. */
  lemma ExamFindingDissents(s: Session, v: Verdict, f: SupervisorFindings.Finding)
    requires f in v.findings
    requires f.code.TestInfraChanged? || f.code.ProtectedPathChanged? || f.code.CorpusHashMismatch?
    ensures var t := WithVerdict(s, v); var result := VerifierPanel.RunPanel(t, VerifierPanel.OwnVerdict(t), 4);
            !result.ok && |result.votes| == 5 && VerifierPanel.CriticalDissent(result.votes[3])
            && result.votes[3].role.RewardHack?
  {
    hide VerifierPanel.Untroubled, VerifierPanel.CorrectnessVote, VerifierPanel.RegressionVote,
        VerifierPanel.SecurityVote, VerifierPanel.ReproducibilityVote, VerifierPanel.TouchesExam, VerifierPanel.Count;
    var t := WithVerdict(s, v);
    assert f.code in Codes(v.findings);
    VerifierPanel.TouchesExamIff(Codes(v.findings));
    VerifierPanel.PanelOkIff(t, VerifierPanel.OwnVerdict(t), 4);
    assert !VerifierPanel.Untroubled(t, VerifierPanel.OwnVerdict(t)) by { ExamTroubles(t); }
  }

  lemma ExamTroubles(t: Session)
    requires t.verdict.Some? && VerifierPanel.FoundAtExam(t.verdict.value.codes)
    ensures !VerifierPanel.Untroubled(t, VerifierPanel.OwnVerdict(t))
  {
    hide VerifierPanel.FoundAtExam, Summarize, VerifierPanel.Replayable;
  }

  // ---------------------------------------------------------------- the corpus in a tree

  /** What JSON makes of a lock file: no JSON, no files in it, or rows. */
  datatype LockText = NotJson | NoRows | Rows(rows: seq<(string, string)>)

  const CORPUS_PREFIX := CorpusLock.CORPUS_DIR + "/"

  /** The files below the corpus directory, by path relative to it. */
  function CorpusFiles(tree: TreeDelta.Tree): (files: map<string, CorpusLock.CorpusFile>)
    ensures forall rel :: rel in files <==> CORPUS_PREFIX + rel in tree.files
    ensures forall rel :: rel in files ==> files[rel] == CorpusLock.Content(tree.files[CORPUS_PREFIX + rel])
  {
    var rels := set path | path in tree.files && CORPUS_PREFIX <= path :: path[|CORPUS_PREFIX|..];
    forall rel ensures rel in rels <==> CORPUS_PREFIX + rel in tree.files {
      var path := CORPUS_PREFIX + rel;
      assert path[|CORPUS_PREFIX|..] == rel;
      if rel in rels {
        var q :| q in tree.files && CORPUS_PREFIX <= q && q[|CORPUS_PREFIX|..] == rel;
        assert q == CORPUS_PREFIX + rel;
      }
    }
    map rel | rel in rels :: CorpusLock.Content(tree.files[CORPUS_PREFIX + rel])
  }

  /** The corpus as the check finds it in a tree of files. */
  function CorpusIn(tree: TreeDelta.Tree, parse: TreeDelta.Bytes -> LockText): CorpusLock.Corpus {
    var files := CorpusFiles(tree);
    if files == map[] then CorpusLock.NoDirectory
    else if CorpusLock.LOCK_FILE !in files then CorpusLock.NoLockFile
    else
      match parse(files[CorpusLock.LOCK_FILE].payload)
      case NotJson => CorpusLock.LockNotJson
      case NoRows => CorpusLock.LockWithoutFiles
      case Rows(rows) => CorpusLock.Locked(rows, files)
  }

  /** The tree's lock file parses, and the map it stands for gives exactly the other corpus files
      with their hashes. */
  ghost predicate CorpusMatchesLock(tree: TreeDelta.Tree, parse: TreeDelta.Bytes -> LockText, sha: TreeDelta.Hash) {
    var lock := CORPUS_PREFIX + CorpusLock.LOCK_FILE;
    && lock in tree.files && parse(tree.files[lock]).Rows?
    && var locked := CorpusLock.LockMap(parse(tree.files[lock]).rows);
       forall rel :: rel != CorpusLock.LOCK_FILE ==>
                       (rel in locked <==> CORPUS_PREFIX + rel in tree.files)
                       && (rel in locked ==>
                               locked[rel] == Lower(CorpusLock.CorpusSha256(sha, rel, tree.files[CORPUS_PREFIX + rel])))
  }

  lemma CleanCorpusMatches(tree: TreeDelta.Tree, parse: TreeDelta.Bytes -> LockText, sha: TreeDelta.Hash)
    requires CorpusLock.Findings(sha, CorpusIn(tree, parse)) == []
    ensures CorpusMatchesLock(tree, parse, sha)
  {
    hide CorpusLock.Findings, CorpusLock.LockMap, CorpusLock.CorpusSha256, CorpusLock.ValidRow, CorpusFiles, Lower;
    var corpus := CorpusIn(tree, parse);
    CorpusLock.NoFindingsIff(sha, corpus);
    var actual, locked := CorpusLock.ActualFiles(corpus.files), CorpusLock.LockMap(corpus.rows);
    forall rel | rel != CorpusLock.LOCK_FILE
      ensures rel in locked <==> CORPUS_PREFIX + rel in tree.files
      ensures rel in locked ==> locked[rel] == Lower(CorpusLock.CorpusSha256(sha, rel, tree.files[CORPUS_PREFIX + rel]))
    {
      assert rel in actual <==> rel in corpus.files;
    }
  }

  /** From the trees on: evaluate the candidate, record the verdict, decide, and ask the panel.
      `parse`, `verificationFloor` and `verifier` stand for what runs outside. */
  method JudgeCandidate(
      blue: TreeDelta.Tree, green: TreeDelta.Tree, sha: TreeDelta.Hash, config: SafetyConfig,
      parse: TreeDelta.Bytes -> LockText,
      claimedCategory: string, claimedRisk: string, verificationFloor: seq<string>, sessionKeys: set<string>,
      s: Session, posture: Posture, riskTier: string, verifier: Verifier)
    returns (v: Verdict, decision: Decision, panel: VerifierPanel.Result)
    ensures TreeDelta.IsDelta(v.delta, TreeDelta.ScopeFiles(blue), TreeDelta.ScopeFiles(green), sha)
    ensures Judged(v, v.delta,
                   Evidence(claimedCategory, claimedRisk, BlockedPaths(config), SortedKeys(BlockedPrefixes(config)),
                            CorpusLock.Findings(sha, CorpusIn(green, parse)), verificationFloor, sessionKeys))
    ensures decision == DecideForSession(posture, WithVerdict(s, v), riskTier, verifier)
    ensures panel == VerifierPanel.RunPanel(WithVerdict(s, v), VerifierPanel.OwnVerdict(WithVerdict(s, v)), 4)
    ensures !v.ok ==> decision.action == Reject && !panel.ok
    ensures v.riskFloor == CRITICAL ==> decision.action != Promote
    ensures (exists rel :: rel in v.delta.ChangedFiles() && GuardedByDefault(rel)) ==> decision.action == Reject
    ensures decision.action == Promote ==> CorpusMatchesLock(green, parse, sha) && verificationFloor == []
    ensures decision.action == Promote ==>
              forall rel :: rel in v.delta.ChangedFiles() ==>
                              !InLoopPackage(NormalizeRelpath(rel)) && !IsNonPython(NormalizeRelpath(rel))
  {
    hide BlockedPaths, BlockedPrefixes, GuardedByDefault, Judged, DecideForSession, VerifierPanel.RunPanel,
        WithVerdict, IsNonPython, TreeDelta.IsDelta, CorpusLock.Findings, Forbidden, Risky, CorpusIn, CorpusMatchesLock;
    var delta := TreeDelta.CollectTreeDelta(blue, green, sha);
    var paths, prefixes := LoadAgentSafetyPaths(config);
    var corpusFindings := CorpusLock.CorpusLockFindings(sha, CorpusIn(green, parse));
    CorpusLock.FindingsReject(sha, CorpusIn(green, parse));
    var e := Evidence(claimedCategory, claimedRisk, paths, prefixes, corpusFindings, verificationFloor, sessionKeys);
    v := EvaluateCandidate(delta, e);
    assert v.delta == delta by { JudgedDelta(v, delta, e); }
    var t := WithVerdict(s, v);
    decision := DecideForSession(posture, t, riskTier, verifier);
    panel := VerifierPanel.RunPanel(t, VerifierPanel.OwnVerdict(t), 4);

    VerdictBinds(s, v, posture, riskTier, verifier);
    RejectedFailsPanel(s, v);
    if rel :| rel in delta.ChangedFiles() && GuardedByDefault(rel) {
      GuardedIsForbidden(rel, delta.added, config);
      ForbiddenAlwaysRejected(s, v, delta, e, rel, posture, riskTier, verifier);
    }
    if decision.action == Promote {
      PromotedIsOrdinary(s, v, delta, e, posture, riskTier, verifier);
      CleanCorpusMatches(green, parse, sha);
      forall rel | rel in delta.ChangedFiles()
        ensures !InLoopPackage(NormalizeRelpath(rel)) && !IsNonPython(NormalizeRelpath(rel))
      {
        RiskyIff(rel, delta.added, e.paths, e.prefixes);
      }
    }
  }

  lemma JudgedDelta(v: Verdict, delta: TreeDelta.Delta, e: Evidence)
    requires Judged(v, delta, e)
    ensures v.delta == delta
  {
  }

  /** A rejecting verdict also keeps the panel from agreeing. */
  lemma RejectedFailsPanel(s: Session, v: Verdict)
    ensures !v.ok ==> !VerifierPanel.RunPanel(WithVerdict(s, v), VerifierPanel.OwnVerdict(WithVerdict(s, v)), 4).ok
  {
    hide VerifierPanel.RunPanel, Summarize, Codes;
    var t := WithVerdict(s, v);
    VerifierPanel.PanelOkIff(t, VerifierPanel.OwnVerdict(t), 4);
  }
}
