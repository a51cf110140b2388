/** The promotion decision of `evolve_supervisor/decision.py`. */
module PromotionDecision {
  import opened Strings
  import opened RelPaths
  import opened CandidatePolicy

  // ---------------------------------------------------------------- the session record

  /** One verification row: its return code if the key is present (null reads as 0), where the
      command came from, how it ended before the change, and whether it timed out. */
  datatype Row = Row(returncode: Option<int>, source: string, baselineReturncode: int, timedOut: bool)

  /** `session["delta"]`. */
  datatype SessionDelta = SessionDelta(changedCount: int, changedFiles: seq<string>)

  /** A JSON value read as a flag: the two booleans, and the others by their truth. */
  datatype Flag = IsTrue | IsFalse | OtherTruthy | OtherFalsy

  /** `session["supervisor_verdict"]`: its `ok`, its floor, files and finding codes. */
  datatype Recorded = Recorded(ok: Flag, riskFloor: string, changedFiles: seq<string>,
                               codes: set<SupervisorFindings.Code>)

  datatype Session = Session(
    status: string, category: string, riskFloor: string,
    delta: Option<SessionDelta>, changedFiles: seq<string>,
    policyViolations: bool, sessionRejections: bool,
    verification: seq<Row>, verificationFloorFailures: bool,
    verdict: Option<Recorded>)

  datatype Outcome = Outcome(
    verificationOk: bool, changedCount: int, policyViolation: bool, agentFailed: bool, verificationRan: bool,
    sessionRejected: bool, verificationFloorFailed: bool, riskFloor: string, humanHoldReason: string)

  predicate RowOk(row: Row) {
    (row.returncode.None? || row.returncode.value == 0) || (row.source == "charter" && row.baselineReturncode != 0)
  }

  predicate AllRowsOk(rows: seq<Row>) {
    forall i :: 0 <= i < |rows| ==> RowOk(rows[i])
  }

  /** Every path any part of the session reports as changed, normalized. */
  function ChangedFiles(s: Session): set<string> {
    var all := (if s.delta.Some? then s.delta.value.changedFiles else []) + s.changedFiles
               + if s.verdict.Some? then s.verdict.value.changedFiles else [];
    set item | item in all && NormalizeRelpath(item) != "" :: NormalizeRelpath(item)
  }

  function FloorText(raw: string): string { Lower(Strip(raw)) }

  function SupervisorFloor(s: Session): string { if s.verdict.Some? then FloorText(s.verdict.value.riskFloor) else "" }

  predicate IsMeta(s: Session) { FloorText(s.category) == "meta" }

  predicate NotPython(rel: string) { !EndsWith(rel, ".py") }

  predicate OwnedOrLoop(rel: string) {
    rel in SUPERVISOR_OWNED || InLoopPackage(rel) || InSupervisorPackage(rel)
  }

  /** `session_risk_floor`. */
  function SessionRiskFloor(s: Session): string {
    var explicit, supervisorFloor := FloorText(s.riskFloor), SupervisorFloor(s);
    if explicit == CRITICAL || supervisorFloor == CRITICAL then CRITICAL
    else if IsMeta(s) then CRITICAL
    else if exists rel :: rel in ChangedFiles(s) && OwnedOrLoop(rel) then CRITICAL
    else if exists rel :: rel in ChangedFiles(s) && NotPython(rel) then CRITICAL
    else if explicit != "" then explicit else supervisorFloor
  }

  /** The first of the sorted changed files that belongs to the loop or the supervisor. */
  function FirstOwned(rels: seq<string>): (first: Option<string>)
    ensures first.None? <==> forall i :: 0 <= i < |rels| ==> !OwnedOrLoop(rels[i])
    ensures first.Some? ==> first.value in rels && OwnedOrLoop(first.value)
  {
    if rels == [] then None else if OwnedOrLoop(rels[0]) then Some(rels[0]) else FirstOwned(rels[1..])
  }

  function NonPythonOnly(rels: seq<string>): (kept: seq<string>)
    ensures forall rel :: rel in kept <==> rel in rels && NotPython(rel)
  {
    if rels == [] then []
    else
      var n := |rels| - 1;
      assert rels == rels[..n] + [rels[n]];
      if NotPython(rels[n]) then NonPythonOnly(rels[..n]) + [rels[n]] else NonPythonOnly(rels[..n])
  }

  function Listed(names: seq<string>): string {
    if names == [] then "" else if |names| == 1 then names[0] else names[0] + ", " + Listed(names[1..])
  }

  function OwnedReason(rel: string): (reason: string)
    ensures reason != ""
  {
    if rel in SUPERVISOR_OWNED then "supervisor-owned evolve file requires human approval: " + rel
    else if InSupervisorPackage(rel) then "blue supervisor package change requires human approval: " + rel
    else "evolve-loop file change requires human approval: " + rel
  }

  function NonPythonReason(nonPython: seq<string>): (reason: string)
    ensures reason != ""
  {
    "non-Python delta requires human approval pending verification coverage: "
    + Listed(nonPython[..if |nonPython| < 8 then |nonPython| else 8])
  }

  /** `risk_floor_human_hold_reason`. */
  function HumanHoldReason(s: Session): string {
    var rels := SortedKeys(ChangedFiles(s));
    var nonPython := NonPythonOnly(rels);
    if IsMeta(s) then "meta candidate risk floor requires human approval"
    else if SupervisorFloor(s) == CRITICAL then "blue supervisor risk floor critical: awaiting human approval"
    else if FloorText(s.riskFloor) == CRITICAL then "critical risk floor requires human approval"
    else
      match FirstOwned(rels)
      case Some(rel) => OwnedReason(rel)
      case None => if nonPython != [] then NonPythonReason(nonPython) else ""
  }

  /** A session is held for a human, whatever the posture, for one of these reasons. */
  ghost predicate NeedsHuman(s: Session) {
    || IsMeta(s) || SupervisorFloor(s) == CRITICAL || FloorText(s.riskFloor) == CRITICAL
    || exists rel :: rel in ChangedFiles(s) && (OwnedOrLoop(rel) || NotPython(rel))
  }

  lemma FloorCriticalIffNeedsHuman(s: Session)
    ensures SessionRiskFloor(s) == CRITICAL <==> NeedsHuman(s)
  {
    hide ChangedFiles, IsMeta, OwnedOrLoop, NotPython, SupervisorFloor, FloorText;
  }

  lemma HoldReasonIffNeedsHuman(s: Session)
    ensures HumanHoldReason(s) != "" <==> NeedsHuman(s)
  {
    hide ChangedFiles, IsMeta, OwnedOrLoop, NotPython, SupervisorFloor, FloorText, OwnedReason, NonPythonReason,
        NonPythonOnly, FirstOwned, SortedKeys;
    var rels := SortedKeys(ChangedFiles(s));
    var nonPython := NonPythonOnly(rels);
    assert forall rel :: rel in rels <==> rel in ChangedFiles(s);
    assert nonPython != [] ==> nonPython[0] in nonPython;
    assert FirstOwned(rels).Some? <==> exists rel :: rel in ChangedFiles(s) && OwnedOrLoop(rel);
    assert nonPython != [] <==> exists rel :: rel in ChangedFiles(s) && NotPython(rel);
  }

  /** The risk floor and the hold reason, written as two separate walks over the session, agree:
      the floor is critical exactly when there is a reason to wait for a human. */
  lemma FloorCriticalIffHold(s: Session)
    ensures SessionRiskFloor(s) == CRITICAL <==> HumanHoldReason(s) != ""
  {
    hide SessionRiskFloor, HumanHoldReason, NeedsHuman;
    FloorCriticalIffNeedsHuman(s);
    HoldReasonIffNeedsHuman(s);
  }

  /** `_supervisor_verdict_rejected`. */
  predicate VerdictRejected(s: Session) { s.verdict.Some? && s.verdict.value.ok.IsFalse? }

  /** `summarize_session_outcome`. */
  function Summarize(s: Session): Outcome {
    Outcome(
      AllRowsOk(s.verification) && !s.verificationFloorFailures,
      if s.delta.Some? && s.delta.value.changedCount != 0 then s.delta.value.changedCount else |s.changedFiles|,
      s.policyViolations,
      s.status == "agent_failed",
      s.verification != [],
      s.sessionRejections || VerdictRejected(s),
      s.verificationFloorFailures,
      SessionRiskFloor(s),
      HumanHoldReason(s))
  }

  // ---------------------------------------------------------------- the decision

  datatype Posture = Propose | AutoSafe | Autonomous

  datatype Action = Promote | Approve | Reject

  datatype Decision = Decision(action: Action, reason: string, posture: Posture, riskTier: string)

  function Tier(riskTier: string): string { Lower(if riskTier == "" then "medium" else riskTier) }

  /** `auto_promotable`. */
  predicate AutoPromotable(posture: Posture, riskTier: string) {
    match posture
    case Autonomous => true
    case AutoSafe => Tier(riskTier) in {"low", "medium"}
    case Propose => false
  }

  /** What to do, and why. */
  function Answer(posture: Posture, tier: string, o: Outcome): (Action, string) {
    if o.agentFailed then (Reject, "agent pass failed")
    else if o.changedCount <= 0 then (Reject, "no changes produced")
    else if o.policyViolation then (Reject, "protected path tamper detected")
    else if o.sessionRejected then (Reject, "session rejected by supervisor policy")
    else if !o.verificationRan then
      (Approve, "no verification ran -- held for your approval (cannot confirm safe)")
    else if !o.verificationOk then
      (Reject, if o.verificationFloorFailed then "verification floor failed" else "verification failed")
    else if o.humanHoldReason != "" then (Approve, o.humanHoldReason)
    else if posture.Propose? then (Approve, "propose mode: awaiting your approval")
    else if posture.Autonomous? then (Promote, "autonomous mode: verified, promoting")
    else if tier in {"low", "medium"} then (Promote, "auto-safe: " + tier + "-risk verified, promoting")
    else (Approve, "auto-safe: " + tier + "-risk held for approval")
  }

  /** `decide_promotion`. */
  function DecidePromotion(posture: Posture, riskTier: string, o: Outcome): Decision {
    var (action, reason) := Answer(posture, Tier(riskTier), o);
    Decision(action, reason, posture, Tier(riskTier))
  }

  /** The answer of an independent rerun of the session's completion claims. */
  datatype Claim = Confirmed | Rejected(summary: string) | Unverifiable

  /** No verifier, or one that may answer nothing. */
  type Verifier = Option<Session -> Option<Claim>>

  /** An independent rerun is asked about every decision but a rejection, and can only reject. */
  function AfterRerun(decision: Decision, s: Session, verifier: Verifier): Decision {
    if verifier.None? || decision.action.Reject? then decision
    else
      match verifier.value(s)
      case Some(Rejected(summary)) =>
        Decision(Reject, "independent verifier rejected completion claim: " + summary,
                 decision.posture, decision.riskTier)
      case _ => decision
  }

  function EffectiveTier(s: Session, riskTier: string): string {
    if SessionRiskFloor(s) != "" then SessionRiskFloor(s) else riskTier
  }

  /** `decide_for_session`. */
  function DecideForSession(posture: Posture, s: Session, riskTier: string, verifier: Verifier): Decision {
    AfterRerun(DecidePromotion(posture, EffectiveTier(s, riskTier), Summarize(s)), s, verifier)
  }

  // ---------------------------------------------------------------- what it guarantees

  /** The session is verified: the agent finished, it changed something, nothing rejected it, and
      the verification that ran passed. */
  ghost predicate Verified(o: Outcome) {
    && !o.agentFailed && o.changedCount > 0 && !o.policyViolation && !o.sessionRejected
    && o.verificationRan && o.verificationOk
  }

  /** The session is rejected outright, before anyone weighs its risk. */
  ghost predicate Condemned(o: Outcome) {
    || o.agentFailed || o.changedCount <= 0 || o.policyViolation || o.sessionRejected
    || (o.verificationRan && !o.verificationOk)
  }

  /** The in-path decision rejects exactly the condemned sessions, and promotes exactly the verified
      ones that need no human and whose tier may promote on its own in this posture. */
  lemma DecisionIff(posture: Posture, riskTier: string, o: Outcome)
    ensures DecidePromotion(posture, riskTier, o).action == Reject <==> Condemned(o)
    ensures DecidePromotion(posture, riskTier, o).action == Promote
            <==> Verified(o) && o.humanHoldReason == "" && AutoPromotable(posture, riskTier)
  {
    hide Tier;
  }

  /** The decision names the posture and the tier it was made for: the session's floor, or the tier asked for,
      lower-cased, and "medium" if there is none. */
  lemma DecisionNames(posture: Posture, s: Session, riskTier: string, verifier: Verifier)
    ensures var d := DecideForSession(posture, s, riskTier, verifier);
            var tier := if SessionRiskFloor(s) != "" then SessionRiskFloor(s) else riskTier;
            d.posture == posture && d.riskTier == Lower(if tier == "" then "medium" else tier)
  {
    hide SessionRiskFloor, DecidePromotion, Summarize, Lower;
    InPathNames(posture, EffectiveTier(s, riskTier), Summarize(s));
  }

  lemma InPathNames(posture: Posture, riskTier: string, o: Outcome)
    ensures var d := DecidePromotion(posture, riskTier, o); d.posture == posture && d.riskTier == Tier(riskTier)
  {
    hide Tier, Answer;
  }

  /** With an independent verifier the decision can only move to rejection. */
  lemma VerifierOnlyRejects(posture: Posture, s: Session, riskTier: string, verifier: Verifier)
    ensures var without := DecideForSession(posture, s, riskTier, None);
            var with := DecideForSession(posture, s, riskTier, verifier);
            with == without || with.action == Reject
    ensures DecideForSession(posture, s, riskTier, None).action == Reject ==>
            DecideForSession(posture, s, riskTier, verifier).action == Reject
  {
    hide Summarize, DecidePromotion;
  }

  /** A row that succeeded, or comes from the charter and already failed before the change. */
  ghost predicate Excused(row: Row) {
    match row.returncode
    case None => true
    case Some(code) => code == 0 || (row.source == "charter" && row.baselineReturncode != 0)
  }

  /** The same, read off the session record itself. */
  ghost predicate VerifiedSession(s: Session) {
    && s.status != "agent_failed" && !s.policyViolations && !s.sessionRejections && !VerdictRejected(s)
    && ReportsChanges(s)
    && s.verification != [] && !s.verificationFloorFailures
    && forall row :: row in s.verification ==> Excused(row)
  }

  /** The delta counts changes, or counts none and files are listed. */
  predicate ReportsChanges(s: Session) {
    if s.delta.Some? && s.delta.value.changedCount != 0 then s.delta.value.changedCount > 0 else s.changedFiles != []
  }

  lemma VerifiedIff(s: Session)
    ensures Verified(Summarize(s)) <==> VerifiedSession(s)
  {
    hide SessionRiskFloor, HumanHoldReason, VerdictRejected;
    var rows := s.verification;
    assert forall row :: Excused(row) <==> RowOk(row);
    hide RowOk, Excused;
    assert (forall row :: row in rows ==> RowOk(row)) <==> forall i :: 0 <= i < |rows| ==> RowOk(rows[i]);
  }

  /** One failing row that the baseline does not excuse ends in rejection, whatever else the session
      says, the posture, the tier and the verifier. */
  lemma FailingRowRejects(posture: Posture, s: Session, riskTier: string, verifier: Verifier, row: Row)
    requires row in s.verification && row.returncode.Some? && row.returncode.value != 0
    requires row.source != "charter" || row.baselineReturncode == 0
    ensures DecideForSession(posture, s, riskTier, verifier).action == Reject
  {
    hide DecideForSession, SessionRiskFloor, HumanHoldReason, DecidePromotion, VerdictRejected;
    assert !AllRowsOk(s.verification);
    DecisionIff(posture, EffectiveTier(s, riskTier), Summarize(s));
    InPathDecision(posture, s, riskTier);
    VerifierOnlyRejects(posture, s, riskTier, verifier);
  }

  /** A session is promoted if and only if it is verified, needs no human, its effective tier may
      promote in this posture, and no independent rerun rejects its claims. */
  lemma PromotedIff(posture: Posture, s: Session, riskTier: string, verifier: Verifier)
    ensures DecideForSession(posture, s, riskTier, verifier).action == Promote
            <==> VerifiedSession(s) && !NeedsHuman(s) && AutoPromotable(posture, EffectiveTier(s, riskTier))
                 && !(verifier.Some? && verifier.value(s).Some? && verifier.value(s).value.Rejected?)
  {
    hide NeedsHuman, AutoPromotable, Verified, VerifiedSession, DecidePromotion, SessionRiskFloor, HumanHoldReason,
        AllRowsOk, VerdictRejected;
    VerifiedIff(s);
    DecisionIff(posture, EffectiveTier(s, riskTier), Summarize(s));
    HoldReasonIffNeedsHuman(s);
  }

  /** What a promotion in the auto-safe posture shows of the risk: the session's own floor, if it names
      one, is low or medium; if it names none, the supervisor's is, if that names one; and if neither
      does, the tier asked for is, or is left open. */
  lemma AutoSafeOnlyUpToMedium(s: Session, riskTier: string, verifier: Verifier)
    requires DecideForSession(AutoSafe, s, riskTier, verifier).action == Promote
    ensures var own := Lower(Strip(s.riskFloor));
            var theirs := if s.verdict.Some? then Lower(Strip(s.verdict.value.riskFloor)) else "";
            var tier := if own != "" then own else if theirs != "" then theirs else riskTier;
            Lower(tier) in {"low", "medium"} || tier == ""
    ensures Lower(Strip(s.riskFloor)) != "high"
  {
    hide DecideForSession, ChangedFiles, IsMeta, OwnedOrLoop, NotPython, Lower, Strip;
    PromotedIff(AutoSafe, s, riskTier, verifier);
    FloorCriticalIffNeedsHuman(s);
    var own := Lower(Strip(s.riskFloor));
    assert own == "high" ==> Lower(own) == "high" by { LowerIdempotent(Strip(s.riskFloor)); }
    assert Lower("medium") == "medium" by { LowerFixed("medium"); }
  }

  /** What holds a session for a human, on the record's own fields. */
  lemma PlainlyHeld(posture: Posture, s: Session, riskTier: string, verifier: Verifier, file: string)
    requires || (s.delta.Some? && file in s.delta.value.changedFiles) || file in s.changedFiles
             || (s.verdict.Some? && file in s.verdict.value.changedFiles)
    requires var rel := NormalizeRelpath(file);
             rel != "" && (!EndsWith(rel, ".py") || "thomas/forge/anvil/" <= rel || "evolve_supervisor/" <= rel)
    ensures DecideForSession(posture, s, riskTier, verifier).action != Promote
  {
    hide DecideForSession, NormalizeRelpath, VerifiedSession, AutoPromotable;
    PromotedIff(posture, s, riskTier, verifier);
    var rel := NormalizeRelpath(file);
    assert rel in ChangedFiles(s);
    hide ChangedFiles;
    assert OwnedOrLoop(rel) || NotPython(rel);
  }

  /** A category that reads "meta" or a floor that reads "critical", in any case and with blanks around
      it, never ends in promotion. */
  lemma MetaOrCriticalHeld(posture: Posture, s: Session, riskTier: string, verifier: Verifier)
    requires || Lower(Strip(s.category)) == "meta" || Lower(Strip(s.riskFloor)) == "critical"
             || (s.verdict.Some? && Lower(Strip(s.verdict.value.riskFloor)) == "critical")
    ensures DecideForSession(posture, s, riskTier, verifier).action != Promote
  {
    hide DecideForSession, VerifiedSession, AutoPromotable, ChangedFiles;
    PromotedIff(posture, s, riskTier, verifier);
  }

  /** Which floor a session without cause for a critical one gets: its own if it names one, else the
      supervisor's. So it is the stronger of the two exactly when the session's own is absent, or ranks
      no lower. */
  lemma StrongerFloorIff(s: Session)
    requires !NeedsHuman(s)
    ensures var own, theirs := FloorText(s.riskFloor), SupervisorFloor(s);
            Rank(SessionRiskFloor(s)) == (if Rank(own) >= Rank(theirs) then Rank(own) else Rank(theirs))
            <==> own == "" || Rank(own) >= Rank(theirs)
  {
    hide ChangedFiles, IsMeta, OwnedOrLoop, NotPython, SupervisorFloor, FloorText;
    FloorCriticalIffNeedsHuman(s);
  }

  /** A verified session of one ordinary file, its own floor "low" and the supervisor's "high". */
  function UnderstatedSession(): Session {
    Session("done", "", "low", Some(SessionDelta(1, ["a.py"])), [], false, false,
            [Row(Some(0), "pytest", 0, false)], false, Some(Recorded(IsTrue, "high", [], {})))
  }

  lemma UnderstatedIsOrdinary()
    ensures var s := UnderstatedSession();
            && FloorText(s.riskFloor) == "low" && SupervisorFloor(s) == "high" && !IsMeta(s)
            && ChangedFiles(s) == {"a.py"} && VerifiedSession(s) && s.verdict.Some?
  {
    PlainFloors();
    OrdinaryFile();
    hide Strip, Lower, NormalizeRelpath;
    assert ["a.py"] + [] + [] == ["a.py"];
  }

  /** The session's own "low" hides the supervisor's "high": this session is promoted in the auto-safe
      posture, although the tier asked for and the supervisor's floor are both high. */
  lemma OwnFloorHidesStronger()
    ensures SupervisorFloor(UnderstatedSession()) == "high"
    ensures DecideForSession(AutoSafe, UnderstatedSession(), "high", None).action == Promote
  {
    UnderstatedIsOrdinary();
    OrdinaryFile();
    PlainFloors();
    hide DecideForSession, UnderstatedSession, VerifiedSession, ChangedFiles, OwnedOrLoop, NotPython, IsMeta, FloorText,
        SupervisorFloor, NormalizeRelpath, Lower, Strip;
    var s := UnderstatedSession();
    assert !NeedsHuman(s);
    FloorCriticalIffNeedsHuman(s);
    PromotedIff(AutoSafe, s, "high", None);
  }

  lemma PlainFloors()
    ensures Lower(Strip("high")) == "high" && Lower(Strip("low")) == "low" && Lower("low") == "low"
    ensures Lower(Strip("")) == ""
  {
    hide Lower;
    assert !IsSpace('h') && !IsSpace('l') && !IsSpace('w');
    StripFixed("high");
    StripFixed("low");
    StripFixed("");
    LowerFixed("high");
    LowerFixed("low");
    LowerFixed("");
  }

  lemma OrdinaryFile()
    ensures NormalizeRelpath("a.py") == "a.py" && !OwnedOrLoop("a.py") && !NotPython("a.py")
  {
    NormalizeFixedIff("a.py");
    hide NormalizeRelpath;
    assert forall rel :: rel in SUPERVISOR_OWNED ==> |rel| > 4;
    assert "a.py"[|"a.py"| - 3..] == ".py";
  }

  /** A rejected verdict or a critical floor settles the matter for every posture, every claimed
      risk and every verifier. */
  lemma VerdictAndFloorBind(posture: Posture, s: Session, riskTier: string, verifier: Verifier)
    ensures VerdictRejected(s) ==> DecideForSession(posture, s, riskTier, verifier).action == Reject
    ensures SessionRiskFloor(s) == CRITICAL ==> DecideForSession(posture, s, riskTier, verifier).action != Promote
  {
    hide NeedsHuman, DecideForSession, SessionRiskFloor, HumanHoldReason, AllRowsOk, DecidePromotion;
    PromotedIff(posture, s, riskTier, verifier);
    FloorCriticalIffNeedsHuman(s);
    if VerdictRejected(s) {
      DecisionIff(posture, EffectiveTier(s, riskTier), Summarize(s));
      InPathDecision(posture, s, riskTier);
      VerifierOnlyRejects(posture, s, riskTier, verifier);
    }
  }

  lemma InPathDecision(posture: Posture, s: Session, riskTier: string)
    ensures DecideForSession(posture, s, riskTier, None)
            == DecidePromotion(posture, EffectiveTier(s, riskTier), Summarize(s))
  {
    hide SessionRiskFloor, HumanHoldReason, DecidePromotion, AllRowsOk, VerdictRejected;
  }
}
