/** The verifier panel of `evolve_supervisor/verifier_panel.py`, and how it agrees with the
    promotion decision. */
module VerifierPanel {
  import opened Strings
  import opened PromotionDecision
  import SupervisorFindings

  datatype Status = Pass | Hold | Dissent

  datatype Role = Correctness | Regression | Security | RewardHack | Reproducibility

  /** A vote; every rejecting vote the panel casts is a critical one. */
  datatype Vote = Vote(role: Role, status: Status, reason: string, critical: bool)

  /** The verdict handed to the panel: whether its `ok` is true, and its finding codes. */
  datatype Supplied = Supplied(ok: bool, codes: set<SupervisorFindings.Code>)

  const EXAM_CODES := {
    SupervisorFindings.TestInfraChanged, SupervisorFindings.ProtectedPathChanged, SupervisorFindings.CorpusHashMismatch}

  predicate TouchesExam(codes: set<SupervisorFindings.Code>) { EXAM_CODES * codes != {} }

  function CorrectnessVote(s: Session): Vote {
    var o := Summarize(s);
    if o.agentFailed then Vote(Correctness, Dissent, "agent pass failed", true)
    else if o.changedCount <= 0 then Vote(Correctness, Dissent, "no candidate changes", true)
    else if !o.verificationRan then Vote(Correctness, Hold, "no verification evidence", false)
    else if !o.verificationOk then Vote(Correctness, Dissent, "verification failed", true)
    else Vote(Correctness, Pass, "candidate has verified changes", false)
  }

  function RegressionVote(s: Session): Vote {
    var o := Summarize(s);
    if o.verificationFloorFailed then Vote(Regression, Dissent, "verification floor failed", true)
    else if !o.verificationRan then Vote(Regression, Hold, "regression checks did not run", false)
    else if !o.verificationOk then Vote(Regression, Dissent, "regression verification failed", true)
    else Vote(Regression, Pass, "regression checks passed", false)
  }

  function SecurityVote(s: Session, verdict: Option<Supplied>): Vote {
    if s.policyViolations then Vote(Security, Dissent, "policy violations present", true)
    else if s.sessionRejections then Vote(Security, Dissent, "session rejected by supervisor policy", true)
    else if verdict.Some? && !verdict.value.ok then Vote(Security, Dissent, "supervisor rejected candidate", true)
    else if verdict.None? then Vote(Security, Hold, "no supervisor verdict supplied", false)
    else Vote(Security, Pass, "supervisor found no security blockers", false)
  }

  function RewardHackVote(s: Session, verdict: Option<Supplied>): Vote {
    if verdict.Some? && TouchesExam(verdict.value.codes) then
      Vote(RewardHack, Dissent, "candidate appears to alter the exam or policy", true)
    else if s.sessionRejections then
      Vote(RewardHack, Dissent, "session-level rejection indicates reward-hack risk", true)
    else if s.verification == [] then Vote(RewardHack, Hold, "no independent verification to inspect", false)
    else Vote(RewardHack, Pass, "no exam-suppression signal found", false)
  }

  predicate Replayable(rows: seq<Row>) {
    forall i :: 0 <= i < |rows| ==> rows[i].returncode.Some? && !rows[i].timedOut
  }

  function RowsVote(rows: seq<Row>): Vote {
    if rows == [] then Vote(Reproducibility, Pass, "verification transcript is replayable enough", false)
    else if rows[0].returncode.None? then Vote(Reproducibility, Dissent, "verification row missing returncode", true)
    else if rows[0].timedOut then Vote(Reproducibility, Dissent, "verification timed out", true)
    else RowsVote(rows[1..])
  }

  function ReproducibilityVote(s: Session): Vote {
    if s.verification == [] then Vote(Reproducibility, Hold, "no verification transcript", false)
    else RowsVote(s.verification)
  }

  lemma {:induction false} RowsVotePassesIff(rows: seq<Row>)
    ensures RowsVote(rows).status == Pass <==> Replayable(rows)
    ensures RowsVote(rows).status != Pass ==> RowsVote(rows).status == Dissent && RowsVote(rows).critical
  {
    if rows != [] {
      RowsVotePassesIff(rows[1..]);
      assert rows == [rows[0]] + rows[1..];
    }
  }

  function Votes(s: Session, verdict: Option<Supplied>): seq<Vote> {
    [CorrectnessVote(s), RegressionVote(s), SecurityVote(s, verdict),
     RewardHackVote(s, verdict), ReproducibilityVote(s)]
  }

  predicate Passed(v: Vote) { v.status == Pass }

  predicate CriticalDissent(v: Vote) { v.status == Dissent && v.critical }

  function Count(votes: seq<Vote>, p: Vote -> bool): nat {
    if votes == [] then 0 else (if p(votes[0]) then 1 else 0) + Count(votes[1..], p)
  }

  datatype Result = Result(ok: bool, quorum: int, passCount: nat, criticalDissentCount: nat, votes: seq<Vote>)

  /** `run_verifier_panel`. */
  function RunPanel(s: Session, verdict: Option<Supplied>, quorum: int): Result {
    var votes := Votes(s, verdict);
    var passes, dissents := Count(votes, Passed), Count(votes, CriticalDissent);
    Result(dissents == 0 && passes >= quorum, quorum, passes, dissents, votes)
  }

  function One(b: bool): nat { if b then 1 else 0 }

  lemma CountOfFive(a: Vote, b: Vote, c: Vote, d: Vote, e: Vote, p: Vote -> bool)
    ensures Count([a, b, c, d, e], p) == One(p(a)) + One(p(b)) + One(p(c)) + One(p(d)) + One(p(e))
  {
    assert [e][1..] == [];
    assert Count([e], p) == One(p(e));
    assert [d, e][1..] == [e];
    assert Count([d, e], p) == One(p(d)) + Count([e], p);
    assert [c, d, e][1..] == [d, e];
    assert Count([c, d, e], p) == One(p(c)) + Count([d, e], p);
    assert [b, c, d, e][1..] == [c, d, e];
    assert Count([b, c, d, e], p) == One(p(b)) + Count([c, d, e], p);
    assert [a, b, c, d, e][1..] == [b, c, d, e];
  }

  /** What a session must show for no role to dissent: nothing failed or was rejected, no exam
      code was found, and every verification row can be replayed. */
  ghost predicate Untroubled(s: Session, verdict: Option<Supplied>) {
    var o := Summarize(s);
    && !o.agentFailed && o.changedCount > 0 && !s.policyViolations && !s.sessionRejections
    && !o.verificationFloorFailed && (o.verificationRan ==> o.verificationOk)
    && (verdict.Some? ==> verdict.value.ok && !FoundAtExam(verdict.value.codes))
    && Replayable(s.verification)
  }

  /** A finding about test infrastructure, a protected path or the frozen corpus. */
  ghost predicate FoundAtExam(codes: set<SupervisorFindings.Code>) {
    || SupervisorFindings.TestInfraChanged in codes || SupervisorFindings.ProtectedPathChanged in codes
    || SupervisorFindings.CorpusHashMismatch in codes
  }

  lemma TouchesExamIff(codes: set<SupervisorFindings.Code>)
    ensures TouchesExam(codes) <==> FoundAtExam(codes)
  {
    assert forall c :: c in EXAM_CODES * codes ==> c in codes;
    if FoundAtExam(codes) {
      assert SupervisorFindings.TestInfraChanged in codes ==> SupervisorFindings.TestInfraChanged in EXAM_CODES * codes;
      assert SupervisorFindings.ProtectedPathChanged in codes ==>
          SupervisorFindings.ProtectedPathChanged in EXAM_CODES * codes;
      assert SupervisorFindings.CorpusHashMismatch in codes ==>
          SupervisorFindings.CorpusHashMismatch in EXAM_CODES * codes;
    } else if c :| c in EXAM_CODES * codes {
      assert c in codes;
    }
  }

  lemma SessionVotesAre(s: Session)
    ensures var o := Summarize(s);
            && (Passed(CorrectnessVote(s)) <==>
                 !o.agentFailed && o.changedCount > 0 && o.verificationRan && o.verificationOk)
            && (CriticalDissent(CorrectnessVote(s)) <==>
                 o.agentFailed || o.changedCount <= 0 || (o.verificationRan && !o.verificationOk))
            && (Passed(RegressionVote(s)) <==> o.verificationRan && o.verificationOk)
            && (CriticalDissent(RegressionVote(s)) <==>
                 o.verificationFloorFailed || (o.verificationRan && !o.verificationOk))
            && (Passed(ReproducibilityVote(s)) <==> o.verificationRan && Replayable(s.verification))
            && (CriticalDissent(ReproducibilityVote(s)) <==> !Replayable(s.verification))
  {
    hide SessionRiskFloor, HumanHoldReason, AllRowsOk, RowsVote, VerdictRejected;
    RowsVotePassesIff(s.verification);
  }

  lemma SecurityVoteIs(s: Session, verdict: Option<Supplied>)
    ensures Passed(SecurityVote(s, verdict))
            <==> !s.policyViolations && !s.sessionRejections && verdict.Some? && verdict.value.ok
    ensures CriticalDissent(SecurityVote(s, verdict))
            <==> s.policyViolations || s.sessionRejections || (verdict.Some? && !verdict.value.ok)
  {
  }

  lemma RewardHackVoteIs(s: Session, verdict: Option<Supplied>)
    ensures var exam := verdict.Some? && TouchesExam(verdict.value.codes);
            && (Passed(RewardHackVote(s, verdict)) <==> !exam && !s.sessionRejections && s.verification != [])
            && (CriticalDissent(RewardHackVote(s, verdict)) <==> exam || s.sessionRejections)
  {
    hide TouchesExam;
  }

  /** Dissent is exactly trouble; without it four roles pass if anything was verified, and the
      security role if a verdict was supplied. */
  lemma VotesAre(s: Session, verdict: Option<Supplied>)
    ensures Count(Votes(s, verdict), CriticalDissent) == 0 <==> Untroubled(s, verdict)
    ensures Untroubled(s, verdict) ==>
              Count(Votes(s, verdict), Passed) == (if s.verification != [] then 4 else 0) + One(verdict.Some?)
  {
    hide SessionRiskFloor, HumanHoldReason, AllRowsOk, Count, CorrectnessVote, RegressionVote, SecurityVote,
        RewardHackVote, ReproducibilityVote, Passed, CriticalDissent, Replayable;
    var a, b, c := CorrectnessVote(s), RegressionVote(s), SecurityVote(s, verdict);
    var d, e := RewardHackVote(s, verdict), ReproducibilityVote(s);
    CountOfFive(a, b, c, d, e, CriticalDissent);
    CountOfFive(a, b, c, d, e, Passed);
    SessionVotesAre(s);
    SecurityVoteIs(s, verdict);
    RewardHackVoteIs(s, verdict);
    if verdict.Some? { TouchesExamIff(verdict.value.codes); }
    hide TouchesExam, FoundAtExam;
    assert s.verification == [] ==> Summarize(s).verificationOk || s.verificationFloorFailures by { EmptyRowsOk(s); }
  }

  lemma EmptyRowsOk(s: Session)
    ensures s.verification == [] ==> Summarize(s).verificationOk || s.verificationFloorFailures
  {
    hide SessionRiskFloor, HumanHoldReason;
  }

  /** The panel agrees exactly when nothing troubles it and the quorum is within reach of the
      evidence: four roles need verification rows, and one a supervisor verdict. */
  lemma PanelOkIff(s: Session, verdict: Option<Supplied>, quorum: int)
    ensures RunPanel(s, verdict, quorum).ok
            <==> Untroubled(s, verdict) && quorum <= (if s.verification != [] then 4 else 0) + One(verdict.Some?)
  {
    hide Untroubled, Count, Votes;
    VotesAre(s, verdict);
  }

  /** The session's own supervisor verdict, as the panel reads it: only a true `ok` or one that
      counts as true will do. */
  function OwnVerdict(s: Session): Option<Supplied> {
    if s.verdict.None? then None
    else Some(Supplied(s.verdict.value.ok.IsTrue? || s.verdict.value.ok.OtherTruthy?, s.verdict.value.codes))
  }

  /** The panel looks at more than the decision does: exam codes, replayable rows, and a verdict
      whose `ok` is missing or empty rather than false. */
  ghost predicate PanelOnlyTrouble(s: Session) {
    || (s.verdict.Some? && (FoundAtExam(s.verdict.value.codes) || s.verdict.value.ok.OtherFalsy?))
    || !Replayable(s.verification)
  }

  lemma UntroubledIff(s: Session)
    ensures Untroubled(s, OwnVerdict(s))
            <==> !Condemned(Summarize(s)) && !s.verificationFloorFailures && !PanelOnlyTrouble(s)
  {
    hide SessionRiskFloor, HumanHoldReason, AllRowsOk, Replayable, FoundAtExam;
  }

  /** Panel and decision, given the same verdict and a quorum of four: the panel agrees exactly when
      verification ran, the decision without an independent rerun does not reject, and none of the
      panel's own worries applies. */
  lemma PanelAgreesWithDecisionIff(s: Session, posture: Posture, riskTier: string)
    ensures RunPanel(s, OwnVerdict(s), 4).ok
            <==> s.verification != [] && DecideForSession(posture, s, riskTier, None).action != Reject
                 && !PanelOnlyTrouble(s)
  {
    hide Untroubled, PanelOnlyTrouble, RunPanel, DecidePromotion, DecideForSession, SessionRiskFloor, HumanHoldReason,
        AllRowsOk;
    PanelOkIff(s, OwnVerdict(s), 4);
    UntroubledIff(s);
    InPathDecision(posture, s, riskTier);
    DecisionIff(posture, EffectiveTier(s, riskTier), Summarize(s));
  }

  /** In the autonomous posture, with no need for a human, an agreeing panel means promotion. */
  lemma PanelMeansPromotion(s: Session, riskTier: string)
    requires RunPanel(s, OwnVerdict(s), 4).ok && HumanHoldReason(s) == ""
    ensures DecideForSession(Autonomous, s, riskTier, None).action == Promote
  {
    hide Untroubled, PanelOnlyTrouble, RunPanel, DecidePromotion, DecideForSession, SessionRiskFloor, HumanHoldReason,
        AllRowsOk;
    PanelAgreesWithDecisionIff(s, Autonomous, riskTier);
    InPathDecision(Autonomous, s, riskTier);
    DecisionIff(Autonomous, EffectiveTier(s, riskTier), Summarize(s));
  }
}
