# Verified models of the lease, spend, promotion, marker and report protocols

A Dafny project that models the repository's real protocols and algorithms and proves what they
guarantee. `dafny verify dfyconfig.toml` checks all of it. One module per file; `strings.dfy` holds the
string operations the others share.

| file | what it models |
|---|---|
| `file_lock.dfy`, `folder_claims.dfy`, `lease_system.dfy`, `lease_runs.dfy` | the folder lease protocol: the `O_EXCL` lock file with its stale timeout as a timed transition system, the claim table and its operations, and both together, down to the shared temporary file, with every file access and clock reading a step of its own |
| `spend_governor.dfy`, `spend_watchdog.dfy` | the append-only spend ledger, its caps and check-then-append, alone and with interleaved writers; the polling watchdog |
| `coverage_floor.dfy` | the reverse-import fixpoint and relative imports |
| `rel_paths.dfy`, `tree_delta.dfy`, `corpus_lock.dfy`, `supervisor_findings.dfy`, `candidate_policy.dfy` | the candidate evaluation: tree delta, frozen-corpus lock, guarded paths, risk floors, verdict |
| `promotion_decision.dfy`, `verifier_panel.dfy`, `promotion_safety.dfy` | the promotion decision, the voting panel, and the chain from two trees to a decision |
| `json_text.dfy`, `breakglass_context.dfy`, `context_codec.dfy` | JSON text as Python writes and reads it, gate-output segmentation, the bounded context encoding |
| `test_corpus.dfy`, `js_fallback.dfy` | the concatenated test-text index and the sentence check; the JavaScript call scanner |
| `commit_guard.dfy` | the signed pre-commit marker, breakglass and audit log |
| `pixel_diff.dfy`, `evidence_scores.dfy` | the two-tier screenshot comparison on arrays that wrap around; the interpolated quantile and the six family scores |

Code that changes state step by step is a class or a method with loops, proved equal to (or against) a
specification function; the properties are then proved of that function, or of runs of a transition system.

## What the proofs turned up

- The lock gives mutual exclusion only while no holder crashes and no hold outlasts the stale timeout.
  Either failure alone breaks it, with concrete runs: `OverlongHoldBreaksExclusion`, and
  `CrashedHolderBreaksExclusion`, where two waiters judge the abandoned file stale and the slower one unlinks
  the lock the faster has just made. One overlong hold also loses a granted lease (`OverlongHoldLosesGrant`).
- The claim table keeps two agents' claims apart even without the lock, as long as no two calls' texts mix in the
  one temporary file: every table comes from a single read, so exclusion inside the file survives, and what is
  lost is whole updates. With the lock working the texts never mix (`NeverMixed`). With an overlong holder they
  can, and then the table itself can hold overlapping claims (`MixedTextBreaksExclusion`).
- The branch that unlinks a stale lock file skips the look at the deadline, so a waiting process can wait far
  beyond its timeout (`OverlongHoldersStarve`); while holds are timely it cannot (`WaitingIsBounded`).
- A heartbeat samples the clock before it waits for the lock. It can therefore report success and leave a
  lease that has already expired, with every hold short and nobody crashed (`HeartbeatCanLeaveDeadLease`);
  `RenewedLeaseAliveIff` says exactly when.
- The spend check and the ledger entry read the clock separately. From a ledger with nothing dated later a
  sequential run still keeps every cap, but a check before midnight stamped after it breaks the next day's cap
  when that day already holds spend (`MidnightCanBreakDailyCap`). N interleaved writers overshoot a cap by at most
  N - 1 reserves, and a day that already held spend by up to N; both bounds are reached. An entry shuts
  the governor for good exactly when its date cannot be read back (`ShutsGovernorIff`).
- The JSON round trip of a breakglass context holds exactly when the encoding fits, the context holds nothing
  the reader replaces, and no text holds a surrogate pair as two separate halves, which `json` merges.
- A corpus file can be locked exactly when its path holds no backslash and neither starts nor ends with white
  space (`LockableIff`). `normalize_relpath` strips every leading dot and slash, so a lock row `.x` names `x`;
  a dot file can be locked all the same, by a key with a leading blank.
- A configuration row that protects the loop package as a directory rejects nothing: that prefix is skipped by the
  test-infrastructure rule, so such changes are only held (`LoopDirectoryRowForbidsNothing`).
- The scope scan tests the whole path for cache directories, so a tree whose root lies inside one shows none
  of its directories (`RootHidesIff`).
- A sentence of nothing but white space and backslashes, and no other, counts as tested by no files at all
  (`TestedByNothingIff`).
- `evaluate_candidate` rejects with a floor below critical exactly on an empty delta with nothing else against it
  (`RejectedBelowCriticalIff`); the decision still rejects.
- `session_risk_floor` is documented as the strongest floor visible, but a floor the session names itself outranks
  any supervisor's below critical (`StrongerFloorIff`): a session that calls itself low is promoted in the
  auto-safe posture although the supervisor says high (`OwnFloorHidesStronger`).

## Model

| member | source | states |
|---|---|---|
| FileLock.LockSafety | scripts/active_folders.py:481-515 | over every interleaving of any number of processes, with no crashed holder and no hold past the stale timeout: at most one holder, the lock file exists exactly while there is one, the stale-unlink branch is never entered |
| FileLock.GivesUpOnlyAfterTimeout | scripts/active_folders.py:485-505 | a process that raises the timeout has waited ten seconds since it asked, whatever the others did |
| FileLock.WaitingIsBounded | scripts/active_folders.py:485-505 | while no holder crashes and no hold outlasts the stale timeout, a waiting process that keeps acting holds the lock or gives up within 504 actions, five for each of the hundred naps that fit into the timeout and four more, whatever the others do |
| FileLock.OverlongHoldersStarve | scripts/active_folders.py:497-502 | without that, a process waits on through any number of stale timeouts, nobody crashed: the branch that unlinks a stale file skips the look at the deadline |
| FileLock.OverlongHoldBreaksExclusion | scripts/active_folders.py:494-500 | a hold past the stale timeout by any amount has a run with two holders and nobody crashed |
| FileLock.CrashedHolderBreaksExclusion | scripts/active_folders.py:494-500 | one crashed holder has a run with two live fresh holders: the stale check and the unlink are not atomic |
| FolderClaims.OverlapIsSharedSubtree | scripts/active_folders.py:311-316 | on normalized paths the string test holds exactly when one component list is a prefix of the other, exactly when the subtrees share a path |
| FolderClaims.FreshLeaseWindow | scripts/active_folders.py:619-632 | a new lease is alive for more than max(1, ttl) - 1 seconds and for at most max(1, ttl), whatever the fraction of a second cut off |
| FolderClaims.PairsExact | scripts/active_folders.py:577-592 | the overlap map holds every overlapping pair, no other, each once |
| FolderClaims.ConflictsExact | scripts/active_folders.py:571-602 | one row per claim not ignored that overlaps a wanted path, with its pairs; no row exactly when there is no such claim |
| FolderClaims.StateFile.PruneExpired | scripts/active_folders.py:551-568 | the loop keeps the living claims in order and counts the others |
| FolderClaims.StateFile.CollectConflicts | scripts/active_folders.py:571-602 | the nested loops compute the conflict rows |
| FolderClaims.StateFile.CreateClaim | scripts/active_folders.py:635-660 | new table and outcome of a create: refused without a change, or granted beside the rivals |
| FolderClaims.StateFile.HeartbeatClaim | scripts/active_folders.py:663-681 | renews the first living claim with the id and drops the dead ones, or changes nothing |
| FolderClaims.StateFile.ReleaseClaim | scripts/active_folders.py:684-699 | drops by id, else by agent, else refuses; counts what left |
| FolderClaims.StateFile.FindConflicts | scripts/active_folders.py:702-709 | reports conflicts and rewrites the table only if something expired |
| FolderClaims.ExclusiveIffNoSharedFile | scripts/active_folders.py:311-316 | no two agents' claims overlap exactly when no path lies under claims of two agents |
| FolderClaims.ApplyKeepsExclusive | scripts/active_folders.py:635-709 | every unforced operation keeps the table free of overlaps between agents |
| FolderClaims.ForcedCreateExclusiveIff | scripts/active_folders.py:648-658 | a forced create keeps it exactly when it had no conflict |
| FolderClaims.CreateGrantedIff | scripts/active_folders.py:635-660 | granted exactly when forced or unopposed by living claims of others; then the claim stands in the table, else nothing changes |
| FolderClaims.CreateLeaves | scripts/active_folders.py:635-660 | a granted create leaves exactly the claims that were alive, less its own on replacement, in order, and after them its claim, which lives max(1, ttl) seconds from the stamp, up to the second |
| FolderClaims.ReleaseDrops | scripts/active_folders.py:684-699 | a release drops exactly the claims with the id, else those of the agent, keeps all others in order, and says how many it dropped; with neither it changes nothing |
| FolderClaims.HeartbeatLeaves | scripts/active_folders.py:663-681 | a heartbeat that succeeds leaves exactly the living claims, in order, with the first of the id stamped anew for max(1, ttl) seconds |
| FolderClaims.FindReports | scripts/active_folders.py:702-709 | a look-up reports one row for each living claim of another agent that overlaps, and leaves exactly the living claims |
| FolderClaims.LivingClaimSurvives | scripts/active_folders.py:635-709 | a living claim survives every operation that does not give it up, unchanged unless it is being renewed |
| FolderClaims.NothingElseAppears | scripts/active_folders.py:635-709 | what stands afterwards stood before under the same id, agent and paths, or is the granted claim |
| FolderClaims.HeartbeatRenewsIff | scripts/active_folders.py:663-681 | succeeds exactly when a claim with the id outlives the clock reading taken before the lock; else changes nothing |
| LeaseSystem.TableAlwaysExclusive | scripts/active_folders.py:518-548 | over every interleaving of unforced calls, crashed and overlong holders included, the table read back never holds overlapping claims of two agents, provided that a call that writes into a file another one emptied or wrote leaves nothing that parses or its own text whole |
| LeaseSystem.NeverMixed | scripts/active_folders.py:481-548 | in a well-behaved run nobody ever writes into a file another call emptied or wrote, so there the proviso holds |
| LeaseRuns.MixedTextBreaksExclusion | scripts/active_folders.py:540-548 | the proviso is needed: a run of unforced calls, nobody crashed, in which the start of an overlong call's text is written over another's and the mixture, itself a well-formed text, is a table with overlapping claims of two agents |
| LeaseSystem.TableChangesAreWholeOperations | scripts/active_folders.py:518-568 | in a well-behaved run each step leaves the table alone or renames one call's temporary file into place, with the effect of that call's whole operation run alone: no lost update |
| LeaseSystem.EveryAnswerAsIfAlone | scripts/active_folders.py:635-709 | linearizability of answers: every answer a caller gets in a well-behaved run, refusals and reports included, is the one its operation gives alone on the table at that moment, and the table changes accordingly |
| LeaseSystem.GrantedClaimStands | scripts/active_folders.py:635-660 | a caller told "granted" has its claim in the table at that moment |
| LeaseSystem.RefusedChangesNothing | scripts/active_folders.py:635-660 | at the step at which a caller is refused, the table stays as it is, whatever the others are doing |
| LeaseSystem.ReleasedMeansReleased | scripts/active_folders.py:684-699 | a caller told "released" has had exactly the claims it named dropped, as many as it was told, and all others left in order |
| LeaseSystem.LeasePersists | scripts/active_folders.py:635-709 | a lease stays in the table, with its agent and paths, while it is alive under its current expiry and no call that gives it up puts its table in place; renewals, refused calls, timeouts and callers that die waiting do not matter |
| LeaseSystem.UntouchedLeaseStays | scripts/active_folders.py:635-709 | until a call that gives it up or renews it puts its table in place, a granted claim stays unchanged until the clock reaches its expiry |
| LeaseSystem.RunningGrantsShareNoFile | scripts/active_folders.py:311-316 | two agents whose leases both run, renewed any number of times or not, never hold a common file, however the calls interleaved |
| LeaseSystem.RenewedLeaseAliveIff | scripts/active_folders.py:663-681 | in a well-behaved run, at the step a heartbeat reports success, the first claim with its id carries the expiry counted from before the lock; it is alive exactly when the clock is short of that, surely after a wait of a second less than the lifetime, surely not after a wait of the whole |
| LeaseRuns.HeartbeatCanLeaveDeadLease | scripts/active_folders.py:663-681 | a run with timely holds and nobody crashed in which a heartbeat reports success, and the lease, alive without it, is dead |
| LeaseRuns.OverlongHoldLosesGrant | scripts/active_folders.py:494-515 | a run with one overlong hold where both agents were granted overlapping paths and one grant is gone |
| SpendGovernor.ReadSpendLedger | evolve_supervisor/spend_governor.py:122-147 | the pass gives the day's and the total sum, or fails exactly when some line is unreadable |
| SpendGovernor.RowCounts | evolve_supervisor/spend_governor.py:110-147 | one more row adds max(0, usd) to the total, whatever its source and date, and to exactly the day of its time of recording, or the day it names without one; which rows make the ledger unreadable |
| SpendGovernor.OtherLinesCountNothing | evolve_supervisor/spend_governor.py:122-147 | any other line adds nothing, and only a blank one leaves the ledger readable |
| SpendGovernor.WithinBudgetIff | evolve_supervisor/spend_governor.py:150-280 | an enabled governor agrees exactly when its settings are sound, the whole ledger is readable and one more reserve fits under every positive cap; a disabled one always does |
| SpendGovernor.VerdictNames | evolve_supervisor/spend_governor.py:150-280 | on numeric settings: exactly when the verdict names each cause, and the sums it reports |
| SpendGovernor.RecordAddsOneReserve | evolve_supervisor/spend_governor.py:283-359 | appended exactly on a positive verdict and a working disk; adds one reserve to its own day and the total; otherwise the ledger is untouched |
| SpendGovernor.ShutsGovernorIff | evolve_supervisor/spend_governor.py:110-147 | an appended entry shuts the governor exactly when its date cannot be read back: then every later check fails on the ledger and nothing is appended |
| SpendGovernor.RecordKeepsCapsIff | evolve_supervisor/spend_governor.py:222-267 | one call always keeps the total cap, and the daily caps exactly when the stamped day had room |
| SpendGovernor.MidnightCanBreakDailyCap | evolve_supervisor/spend_governor.py:314-322 | a ledger and two days for which a check before midnight breaks the next day's cap |
| SpendGovernor.SequentialRunKeepsCaps | evolve_supervisor/spend_governor.py:283-359 | any sequential run under a clock that does not run backwards, from a ledger within its caps and with nothing dated later, keeps the total and every day within each positive cap |
| SpendGovernor.RunSpendsReservePerSuccess | evolve_supervisor/spend_governor.py:283-359 | over a run the total grows by one reserve per success and by nothing else |
| SpendGovernor.InterleavedOvershootBounded | evolve_supervisor/spend_governor.py:294-337 | with N writers between check and append in any order, midnights included, the total exceeds its cap by at most N - 1 reserves; so does every day's sum from a ledger with nothing dated later, and by at most N reserves from any ledger within its caps |
| SpendGovernor.OvershootIsReached | evolve_supervisor/spend_governor.py:294-337 | for every N and every configuration whose tightest cap has room for one reserve, some run brings the total and one day's sum N - 1 reserves above that cap |
| SpendGovernor.FutureOvershootIsReached | evolve_supervisor/spend_governor.py:294-337 | for every N and every daily cap with room for one reserve, and a total cap that has room beside a full day: with spend already dated later than the clock, some run across midnight brings that day N reserves above its cap |
| SpendGovernor.LedgerFile.EvaluateSpendGovernor | evolve_supervisor/spend_governor.py:150-280 | the checks in the source's order give the specified verdict |
| SpendGovernor.LedgerFile.RecordEvolveChildSpend | evolve_supervisor/spend_governor.py:283-359 | result and new ledger as specified; the old ledger stays a prefix |
| SpendWatchdog.Monitor | evolve_supervisor/spend_governor.py:455-515 | the loop yields the specified run, well shaped, with at most ceil(max(1, timeout) / interval) polls |
| SpendWatchdog.PollUntilDone | evolve_supervisor/spend_governor.py:470-515 | the `while True` loop ends and yields the specified run |
| SpendWatchdog.RunsAreWellShaped | evolve_supervisor/spend_governor.py:470-515 | rounds of one wait of at most an interval and one passing check, then exit, failed check or deadline |
| SpendWatchdog.TerminatedExactlyOnce | evolve_supervisor/spend_governor.py:470-515 | one termination, as the last event, exactly on timed out or triggered, never both; none when the child exits |
| SpendWatchdog.PollsBounded | evolve_supervisor/spend_governor.py:470-515 | no more polls than intervals in the time left, whatever child and checks do |
| SpendWatchdog.BudgetIsCeil | evolve_supervisor/spend_governor.py:466-478 | that bound is the ceiling of time over interval |
| SpendWatchdog.FirstStopDecides | evolve_supervisor/spend_governor.py:470-515 | the first round that does not go on decides the result, deadline 124, the child's own code, or 125 for a failing or raising check; and the clock reading the run ends at |
| SpendWatchdog.TimesOutOnlyLate | evolve_supervisor/spend_governor.py:466-515 | a run that says it timed out ended at least a second, and all the time it was given, after its start |
| SpendWatchdog.SomeRoundStops | evolve_supervisor/spend_governor.py:470-515 | there always is such a round |
| SpendWatchdog.IntervalOf | evolve_supervisor/spend_governor.py:466-469 | no interval asked for means five seconds, and less than fifty milliseconds means fifty |
| CoverageFloor.DependentModules | evolve_supervisor/coverage_floor.py:93-128 | the passes end and return exactly the scanned modules outside the seeds that reach a seed through a chain of imports |
| CoverageFloor.DependsOnIff | evolve_supervisor/coverage_floor.py:88-90 | one module depends on another exactly when the other's dotted components begin those of one of its imports |
| CoverageFloor.ClosedIsExact | evolve_supervisor/coverage_floor.py:113-123 | a sound set closed under the imports is the seeds plus exactly their dependents |
| CoverageFloor.OrderIndependent | evolve_supervisor/coverage_floor.py:113-123 | the result does not depend on scanning order |
| CoverageFloor.MoreSeedsMoreDependents | evolve_supervisor/coverage_floor.py:93-128 | more changed modules never lose a dependent, except to the changed ones |
| CoverageFloor.ResolveDropsLevels | evolve_supervisor/coverage_floor.py:55-64 | level n names the package less its last n - 1 components, then what is imported; absolute, package-less and too deep imports name what is written |
| RelPaths.NormalizeFixedIff | evolve_supervisor/coverage_floor.py:19-20 | a path is left alone exactly when it has no backslash and starts with neither dot nor slash |
| RelPaths.NormalizeIdempotent | evolve_supervisor/coverage_floor.py:19-20 | normalizing twice is normalizing once |
| RelPaths.NormalizeDropsLeading | evolve_supervisor/coverage_floor.py:19-20 | normalizing turns backslashes around and takes away leading dots and slashes, and nothing else |
| TreeDelta.RootHidesIff | evolve_supervisor/supervisor.py:281-299 | below a cache directory only the listed files are in scope; where a root lies changes what is in scope exactly when it lies below one and the tree has other files in scope |
| TreeDelta.InScopeIff | evolve_supervisor/supervisor.py:281-299 | in scope are the listed files and the paths of two components or more below a listed directory that are no bytecode and have no cache directory among root and path |
| TreeDelta.CollectTreeDelta | evolve_supervisor/supervisor.py:302-321 | each list is sorted and holds exactly the scoped paths that changed its way |
| TreeDelta.ChangedFilesOnce | evolve_supervisor/supervisor.py:81-87 | the changed files are exactly the differing paths, each once |
| TreeDelta.AppliedIsGreenIff | evolve_supervisor/supervisor.py:302-321 | applying the delta to blue gives exactly green's files if and only if no changed file keeps its hash |
| TreeDelta.EmptyIffAgree | evolve_supervisor/supervisor.py:302-321 | empty exactly when paths and hashes agree; without collisions, when the files do |
| TreeDelta.ReversedDelta | evolve_supervisor/supervisor.py:302-321 | exchanging blue and green exchanges added and removed only |
| CorpusLock.CanonicalOfMaterialized | evolve_supervisor/supervisor.py:149-155 | replacing CRLF undoes a CRLF check-out of any bytes |
| CorpusLock.CanonicalFixedIff | evolve_supervisor/supervisor.py:149-155 | bytes are their own canonical form exactly when they hold no CRLF |
| CorpusLock.MaterializationKeepsHashIff | evolve_supervisor/supervisor.py:149-155 | with a hash that tells the two forms apart, a CRLF check-out keeps a text file's corpus hash exactly when it held no CRLF |
| CorpusLock.HashedByExtension | evolve_supervisor/supervisor.py:149-155 | CRLF is hashed as LF exactly for names with something before their last dot and json, md or txt, in any case, after it |
| CorpusLock.ReadRows | evolve_supervisor/supervisor.py:202-224 | the lock map (later rows override) and one finding per invalid row |
| CorpusLock.LastRowWins | evolve_supervisor/supervisor.py:202-224 | the map gives each path the hash of the last valid row that names it |
| CorpusLock.CheckLockedPaths | evolve_supervisor/supervisor.py:235-267 | for each locked path in order: missing, unreadable, mismatch or nothing |
| CorpusLock.CorpusLockFindings | evolve_supervisor/supervisor.py:158-278 | the whole check computes the specified findings |
| CorpusLock.NoFindingsIff | evolve_supervisor/supervisor.py:158-278 | no finding exactly when the lock is non-empty, every row valid, and its map is the corpus path by path and hash by hash |
| CorpusLock.FindingsName | evolve_supervisor/supervisor.py:202-278 | each finding about a path is made exactly when the path deserves it: an invalid row, a locked path missing, unreadable or changed, a file nobody locked |
| CorpusLock.FindingsReject | evolve_supervisor/supervisor.py:158-278 | every finding is a reason to reject |
| CorpusLock.LockableIff | evolve_supervisor/supervisor.py:202-224 | some valid lock row names a path exactly when it holds no backslash, neither starts nor ends with white space, and is a proper path below the corpus other than the lock file |
| CorpusLock.BlankKeyNames | evolve_supervisor/supervisor.py:202-205 | a leading blank in the key saves a path its leading dots and slashes, so a dot file can be locked |
| CorpusLock.OwnNameLocksIff | evolve_supervisor/supervisor.py:202-205 | the path itself will do as the key exactly when it is spelled without backslash, leading dot or slash, and blanks at its ends |
| CorpusLock.CorpusCanBeLockedIff | evolve_supervisor/supervisor.py:158-278 | some lock makes the check pass exactly when there is a file to lock, every file can be read and every path can be locked |
| CorpusLock.UnlockableNeverClean | evolve_supervisor/supervisor.py:205-278 | a file that cannot be read or locked draws a finding whatever the lock says |
| CorpusLock.CheckoutKeepsFindings | evolve_supervisor/supervisor.py:149-278 | on a CRLF check-out of text without CRLF the check answers the same |
| CandidatePolicy.MaxRiskIsJoin | evolve_supervisor/supervisor.py:465-468 | the combined risk ranks as the higher one; grouping does not matter; repetition changes nothing |
| CandidatePolicy.MaxRiskCriticalIff | evolve_supervisor/supervisor.py:465-468 | critical exactly when a part is |
| CandidatePolicy.LoadAgentSafetyPaths | evolve_supervisor/supervisor.py:324-361 | the loops collect exactly the specified paths and, sorted, prefixes |
| CandidatePolicy.JudgePath | evolve_supervisor/supervisor.py:416-461 | the findings of one path and a critical floor exactly when it is risky |
| CandidatePolicy.StaticPolicyFindings | evolve_supervisor/supervisor.py:408-462 | the loop computes the findings path by path, and a critical floor exactly when some changed path is risky |
| CandidatePolicy.PathFindingsIff | evolve_supervisor/supervisor.py:416-461 | each of the four findings about a path is there exactly for its own reason, and no other is |
| CandidatePolicy.StaticFindingsEmptyIff | evolve_supervisor/supervisor.py:408-462 | no static finding exactly when no changed path is forbidden; all of them reject |
| CandidatePolicy.EvaluateCandidate | evolve_supervisor/supervisor.py:471-527 | ok exactly without findings; the verification floor is asked only of a clean delta; the exact causes of a critical floor, and otherwise the claimed risk, lower-cased, "low" if none |
| CandidatePolicy.AcceptedIff | evolve_supervisor/supervisor.py:471-527 | accepted exactly when something changed, the corpus is clean, no forbidden path is touched and the floor has no complaint |
| CandidatePolicy.RejectedBelowCriticalIff | evolve_supervisor/supervisor.py:471-527 | rejected with a floor below critical exactly when nothing changed, the corpus is clean, and neither the claimed risk is critical nor the claimed category meta |
| CandidatePolicy.GuardedIsForbidden | evolve_supervisor/supervisor.py:364-379 | tests, supervisor, runtime prefixes and files, loop-owned files and every conftest.py are forbidden under any configuration |
| CandidatePolicy.ConfiguredRowForbids | evolve_supervisor/supervisor.py:347-372 | a configured row forbids its file, or every path below its directory unless that is the loop package |
| CandidatePolicy.ConfiguredTestDirForbids | evolve_supervisor/supervisor.py:342-345 | a configured test directory forbids every path below it unless it names the loop package |
| CandidatePolicy.LoopFilesAreWatched | evolve_supervisor/supervisor.py:392-461 | a new Python file in the loop package is forbidden, and a changed one, or one that is not Python, is risky, under any configuration |
| CandidatePolicy.LoopDirectoryRowForbidsNothing | evolve_supervisor/supervisor.py:364-372 | a row that protects the loop package as a directory forbids no path more |
| PromotionDecision.FloorCriticalIffHold | evolve_supervisor/decision.py:193-234 | the session's floor is critical exactly when there is a reason to wait for a human |
| PromotionDecision.DecisionIff | evolve_supervisor/decision.py:237-296 | rejects exactly the condemned outcomes, promotes exactly the verified ones without a hold whose tier may promote in the posture |
| PromotionDecision.VerifiedIff | evolve_supervisor/decision.py:126-156 | the summarized outcome counts as verified exactly when the record shows changes, no rejection, and only rows whose return code is missing or 0, or that come from the charter and failed at baseline |
| PromotionDecision.FailingRowRejects | evolve_supervisor/decision.py:126-156 | one other row ends in rejection, whatever else the session says, the posture, the tier and the verifier |
| PromotionDecision.VerifierOnlyRejects | evolve_supervisor/decision.py:332-342 | an independent verifier changes a decision only into a rejection |
| PromotionDecision.PromotedIff | evolve_supervisor/decision.py:299-342 | promoted exactly when the record is verified, nothing needs a human, the tier may promote in the posture and no rerun rejects |
| PromotionDecision.AutoSafeOnlyUpToMedium | evolve_supervisor/decision.py:193-250 | what auto-safe promotes has a low or medium floor of its own, or none and such a floor from the supervisor, or neither and such a tier asked for or none |
| PromotionDecision.PlainlyHeld | evolve_supervisor/decision.py:163-234 | a session that lists, in any of its three places, a file that is not Python or belongs to the loop or supervisor package is never promoted |
| PromotionDecision.MetaOrCriticalHeld | evolve_supervisor/decision.py:181-234 | a category that reads meta or a floor that reads critical, in any case and with blanks around it, is never promoted |
| PromotionDecision.StrongerFloorIff | evolve_supervisor/decision.py:193-209 | the floor is the stronger of the session's own and the supervisor's exactly when the own one is absent or ranks no lower |
| PromotionDecision.OwnFloorHidesStronger | evolve_supervisor/decision.py:193-209 | a verified session with its own floor low is promoted in auto-safe although the supervisor's floor and the tier asked for are high |
| PromotionDecision.DecisionNames | evolve_supervisor/decision.py:253-342 | the decision names the posture and the lower-cased tier it was made for |
| PromotionDecision.VerdictAndFloorBind | evolve_supervisor/decision.py:181-209 | a recorded rejection always rejects and a critical floor never promotes, for every posture, tier and verifier |
| VerifierPanel.RowsVotePassesIff | evolve_supervisor/verifier_panel.py:145-154 | the row walk passes exactly when every row has a return code and none timed out, and otherwise dissents critically |
| VerifierPanel.VotesAre | evolve_supervisor/verifier_panel.py:95-173 | no dissent exactly when nothing troubles the session; then four votes pass if anything was verified and one if a verdict came |
| VerifierPanel.PanelOkIff | evolve_supervisor/verifier_panel.py:157-180 | for every quorum, ok exactly when nothing troubles the session and the quorum is within reach of the evidence |
| VerifierPanel.PanelAgreesWithDecisionIff | evolve_supervisor/verifier_panel.py:157-180 | with the same verdict and quorum four: ok exactly when verification ran, the decision does not reject, and no exam code, unreplayable row or missing `ok` troubles the panel alone |
| VerifierPanel.PanelMeansPromotion | evolve_supervisor/verifier_panel.py:157-180 | in the autonomous posture without a hold, an agreeing panel means promotion |
| PromotionSafety.VerdictBinds | evolve_supervisor/corpus_runner.py:162-174 | with the verdict recorded in the session: not ok always rejects, critical never promotes, for all else |
| PromotionSafety.PromotedIsOrdinary | evolve_supervisor/corpus_runner.py:162-174 | whatever is promoted was accepted, touches only ordinary Python files, has a clean corpus and floor, and a verified session |
| PromotionSafety.ForbiddenAlwaysRejected | evolve_supervisor/supervisor.py:408-462 | touching a forbidden path always ends in rejection |
| PromotionSafety.RiskyNeverPromoted | evolve_supervisor/supervisor.py:438-461 | touching the loop package or a file that is not Python never ends in promotion |
| PromotionSafety.HighRiskNeedsOwnFloor | evolve_supervisor/corpus_runner.py:162-174 | from candidate to decision: auto-safe promotes a candidate with claimed risk high only if the session names a low or medium floor of its own |
| PromotionSafety.JudgeCandidate | evolve_supervisor/corpus_runner.py:162-174 | from two trees on: exact delta, judged verdict, decision and panel, and the safety clauses for them; whatever is promoted has a corpus that matches its own lock |
| PromotionSafety.CleanCorpusMatches | evolve_supervisor/supervisor.py:158-278 | a tree whose corpus draws no finding holds a lock that parses and gives exactly its other corpus files with their hashes |
| PromotionSafety.RejectedFailsPanel | evolve_supervisor/verifier_panel.py:119-129 | a rejecting verdict also keeps the panel from agreeing |
| PromotionSafety.ExamFindingDissents | evolve_supervisor/verifier_panel.py:132-142 | a finding about test infrastructure, a protected path or the frozen corpus makes the reward-hack role dissent |
| BreakglassContext.FailedGateBlocks | scripts/breakglass_context.py:93-114 | in order, exactly the Failed headers with a non-empty name, each with the lines strictly between it and the next header of any status |
| BreakglassContext.FirstMeaningfulLineExact | scripts/breakglass_context.py:117-129 | the first meaningful line that is no safety note, else the first meaningful one, else the stock phrase |
| BreakglassContext.EvidenceLinesExact | scripts/breakglass_context.py:132-150 | at most four meaningful lines, no two alike, only telling ones as soon as there is one, none only if nothing is meaningful |
| BreakglassContext.EvidenceIsFirstFour | scripts/breakglass_context.py:132-150 | they are, of the first four telling lines, or meaningful ones if none is telling, those unlike every earlier one, in order |
| BreakglassContext.CollectEvidence | scripts/breakglass_context.py:132-150 | the two loops with early exit compute the specified evidence |
| BreakglassContext.DedupeLines | scripts/breakglass_context.py:81-90 | first occurrences up to case |
| BreakglassContext.BuiltContextIsCanonical | scripts/breakglass_context.py:216-279 | whatever the gates printed, a built context holds nothing the reader replaces or drops |
| BreakglassContext.BuildCommitBlockerContext | scripts/breakglass_context.py:216-279 | the built context, its segmentation, and its canonicity under non-empty default labels |
| BreakglassContext.BuiltContextShows | scripts/breakglass_context.py:216-279 | a built context shows the first five blocks with their names, reasons, evidence and guidance, or without blocks the first three lines that clean to anything |
| Json.NextEncodedChar | scripts/breakglass_context.py:282-291 | every code point is read back from its escaped form (section 7 of RFC 8259), unless it completes a pair |
| Json.ReadEncoded | scripts/breakglass_context.py:282-291 | reading undoes writing, whatever follows, up to merged surrogate pairs |
| Json.MergeFixedIff | scripts/breakglass_context.py:282-291 | a string comes back unharmed exactly when it holds no split pair |
| Json.ReadValueStable | scripts/breakglass_context.py:286-292 | a closed or delimited value is read the same however the text goes on (section 2 of RFC 8259) |
| Json.StrictPrefixIsNoText | scripts/breakglass_context.py:282-292 | no strict prefix of a complete object, array or string text is a JSON text |
| ContextCodec.JsonTrip | scripts/breakglass_context.py:282-328 | a fitting encoding comes back as the reread context; a cut one comes back as nothing |
| ContextCodec.WhateverIsReadIsCanonical | scripts/breakglass_context.py:286-328 | whatever text the reader is given, what it makes of it, if anything, is canonical |
| ContextCodec.WhatFallsBack | scripts/breakglass_context.py:286-328 | defaults stand in for missing values, null, false and empty texts, lists and objects, and for no other value but a zero |
| ContextCodec.RoundTripIff | scripts/breakglass_context.py:282-328 | equal after the trip exactly when it fits, is canonical and holds no split pair |
| ContextCodec.SplitPairComesBackMerged | scripts/breakglass_context.py:282-328 | a context that fits and is canonical and comes back as another one: its title, a pair in two halves, returns as one character |
| ContextCodec.BuiltContextRoundTrips | scripts/breakglass_context.py:216-328 | a built context of ordinary text comes back equal when it fits and as nothing when it does not |
| TestCorpusIndex.NormalizeFixedIff | scripts/failure_string_reachability_report.py:104-106 | left alone exactly when single-spaced, trimmed and free of backslashes |
| TestCorpusIndex.NormalizeIdempotent | scripts/failure_string_reachability_report.py:104-106 | idempotent, and the result holds no line break |
| TestCorpusIndex.NormalizeIsWords | scripts/failure_string_reachability_report.py:104-106 | normalization keeps exactly the words of the text without its backslashes, in order, one blank between any two |
| TestCorpusIndex.TextInBlob | scripts/failure_string_reachability_report.py:296-318 | each text stands in the blob at its recorded offset, followed by a line break or the end |
| TestCorpusIndex.OccurrenceInsideText | scripts/failure_string_reachability_report.py:318-330 | a needle without line breaks found in a text's stretch lies wholly inside that text |
| TestCorpusIndex.TestCorpus.constructor | scripts/failure_string_reachability_report.py:296-318 | the loop builds exactly the index of the files worth indexing |
| TestCorpusIndex.TestCorpus.Find | scripts/failure_string_reachability_report.py:320-330 | blob search with bisect agrees with searching file by file for every needle without a line break: the first file that holds it, none if none does; any other needle is reported where it first starts in the joined texts |
| TestCorpusIndex.Sentence.CheckTested | scripts/failure_string_reachability_report.py:333-350 | tested exactly when some file holds the sentence or, from eight words on, its leading or trailing six; the note names the first such needle and file |
| TestCorpusIndex.TestedIff | scripts/failure_string_reachability_report.py:333-350 | a sentence is tested exactly when a file holds all of it or, from eight words on, its first or last six |
| TestCorpusIndex.ConsecutiveWordsAreTested | scripts/failure_string_reachability_report.py:296-350 | a sentence whose words stand one after the other in some file is tested, however the file spaces them or breaks them over lines |
| TestCorpusIndex.MoreFilesKeepTested | scripts/failure_string_reachability_report.py:333-350 | adding files, wherever they sort, never makes a tested sentence untested |
| TestCorpusIndex.TestedByNothingIff | scripts/failure_string_reachability_report.py:320-350 | with no test files at all a sentence counts as tested exactly when it is nothing but white space and backslashes |
| JsFallback.ReadQuoted | scripts/failure_string_reachability_report.py:243-255 | the inner loop returns the unescaped literal and where it ends |
| JsFallback.ExtractJsFallback | scripts/failure_string_reachability_report.py:234-267 | the scanner loop answers as specified |
| JsFallback.ReadsWritten | scripts/failure_string_reachability_report.py:243-255 | reading a literal undoes writing it, however it was escaped |
| JsFallback.ExtractsFallback | scripts/failure_string_reachability_report.py:234-267 | on every closed call: exactly the first quoted literal after the first argument, unescaped, with its position; none if there is none |
| JsFallback.FirstFallbackIff | scripts/failure_string_reachability_report.py:234-267 | that literal is the first with a top-level comma before it; none exactly when there is no such literal |
| JsFallback.SecondArgumentIsFound | scripts/failure_string_reachability_report.py:234-267 | a second argument in any of the three quotes and any of the three brackets is found |
| JsFallback.ExtractsFromOpenCall | scripts/failure_string_reachability_report.py:234-267 | on a call that never closes: the same, else the literal the source breaks off in if it is an argument after the first, else none |
| JsFallback.EveryCallIsRead | scripts/failure_string_reachability_report.py:234-267 | every source with a bracket at that place reads from there as a closed call or one that never closes, so the two laws give every answer |
| CommitGuard.Guard.LoadOrCreateKey | scripts/commit_breakglass_guard.py:107-132 | a key is minted only when asked for, missing and writable |
| CommitGuard.Guard.PreCommitStart | scripts/commit_breakglass_guard.py:307-310 | both markers go, key and audit stay |
| CommitGuard.Guard.PreCommitSuccess | scripts/commit_breakglass_guard.py:313-332 | the signed marker for tree, HEAD and time; nothing changes when git fails |
| CommitGuard.Guard.AuthorizeBreakglass | scripts/commit_breakglass_guard.py:388-460 | passes exactly when asked for with ticket and reason and authorized; what is audited, marked and written into the message in each case |
| CommitGuard.Guard.PrepareCommitMsg | scripts/commit_breakglass_guard.py:463-467 | marker first, breakglass second; the message changes only on an authorized breakglass |
| CommitGuard.MarkerPassesIff | scripts/commit_breakglass_guard.py:268-308 | what a success left passes exactly when git wrote the same tree both times, not blank, and the same HEAD, failures counting as blank, it is max(1, minutes) minutes old at most, and the present key signs alike |
| CommitGuard.CleanPassIff | scripts/commit_breakglass_guard.py:268-332 | over every run: prepare passes without breakglass exactly when the last start-or-success step was a success that vouches for the commit |
| CommitGuard.FreshSuccessPassesUntilStale | scripts/commit_breakglass_guard.py:268-308 | after a success, with index, HEAD and key left alone, commits pass exactly until the marker is too old |
| CommitGuard.BreakglassPassesIff | scripts/commit_breakglass_guard.py:335-460 | breakglass passes exactly when the flag reads as a yes, ticket and reason hold more than white space, sign-in agrees and git writes the tree; and what is then recorded |
| CommitGuard.DeniedIsAudited | scripts/commit_breakglass_guard.py:388-440 | an attempt denied at sign-in is audited as not authorized and changes nothing else |
| CommitGuard.EveryBreakglassIsAudited | scripts/commit_breakglass_guard.py:335-460 | over every run the log only grows and holds one authorized line per breakglass commit and none besides |
| CommitGuard.BypassMarkerIff | scripts/commit_breakglass_guard.py:307-460 | the breakglass marker stands exactly while a breakglass commit got through after the last start or success |
| CommitGuard.TrailerOnce | scripts/commit_breakglass_guard.py:342-360 | a second breakglass never adds a second trailer |
| CommitGuard.TrailerIsTwoLines | scripts/commit_breakglass_guard.py:342-360 | whatever line breaks ticket, reason and actor hold, a message without a trailer gains a blank line and exactly two lines |
| CommitGuard.TrailerNames | scripts/commit_breakglass_guard.py:342-360 | the first of the two lines names the ticket and who did it, the second the reason |
| PixelDiff.LocalContrast | scripts/refresh_site_visual_proof.py:231-245 | the folded windows reach the edge contrast exactly where two window pixels differ by it in some channel |
| PixelDiff.DirectionalMismatch | scripts/refresh_site_visual_proof.py:248-275 | a pixel mismatches exactly when it differs by more than 8 and is not an edge with a counterpart within 24 |
| PixelDiff.PixelDiffStats | scripts/refresh_site_visual_proof.py:278-330 | count, total and ratio of the symmetric mask on the padded images, for images of any two sizes |
| PixelDiff.CountTrueIsSize | scripts/refresh_site_visual_proof.py:312-312 | the count is the number of places set in the mask |
| PixelDiff.OffTheImage | scripts/refresh_site_visual_proof.py:285-295 | where only one of two images has a pixel it is compared with black, and where neither has one nothing differs |
| PixelDiff.SwapKeepsMask | scripts/refresh_site_visual_proof.py:307-309 | which image is the baseline does not matter |
| PixelDiff.ShiftKeepsCount | scripts/refresh_site_visual_proof.py:231-312 | shifting both images around the borders shifts the mask and keeps the count |
| PixelDiff.SumOfRolled | scripts/refresh_site_visual_proof.py:312-312 | turning a row around does not change its count |
| PixelDiff.ChangedIff | scripts/refresh_site_visual_proof.py:301-309 | changed exactly when it differs by more than 8 and is not an edge matched in both directions |
| PixelDiff.DifferenceExceedsIff | scripts/refresh_site_visual_proof.py:264-268 | two pixels differ by more than a tolerance exactly when some channel does |
| PixelDiff.FlatChangedIff | scripts/refresh_site_visual_proof.py:264-274 | flat in both images: changed exactly when the difference exceeds 8 |
| PixelDiff.NoCounterpartIsChanged | scripts/refresh_site_visual_proof.py:301-309 | a pixel of either image without a counterpart within 24 in the other's window is always counted |
| EvidenceScores.QuantilePermuted | scripts/generate_prog_evidence_payloads.py:72-83 | the order of the values does not matter |
| EvidenceScores.QuantileMonotone | scripts/generate_prog_evidence_payloads.py:72-83 | non-decreasing in q |
| EvidenceScores.QuantileRange | scripts/generate_prog_evidence_payloads.py:72-83 | between least and greatest value, which q = 0 and q = 1 (and beyond) reach |
| EvidenceScores.QuantileBetweenNeighbours | scripts/generate_prog_evidence_payloads.py:72-83 | of n values in order, the quantile at (k + f) / (n - 1) lies the part f of the way from the value at k to the next |
| EvidenceScores.MeanWeighs | scripts/generate_prog_evidence_payloads.py:58-61 | the mean of one value is that value, and the mean of two groups weighs each by its size |
| EvidenceScores.StdevOfTwo | scripts/generate_prog_evidence_payloads.py:64-69 | the deviation is that of the population: of two values, half their distance |
| EvidenceScores.ScoresInRange | scripts/generate_prog_evidence_payloads.py:174-219 | all six scores in [0, 100]; release is exactly the least of evaluation, safety, task quality and reliability |
| EvidenceScores.ScoreShares | scripts/generate_prog_evidence_payloads.py:198-219 | what each component is worth to each score |
| EvidenceScores.ScoresAddUp | scripts/generate_prog_evidence_payloads.py:198-219 | scores of components add up, and penalties come off the reliability alone |
| EvidenceScores.EqualRowsSummary | scripts/generate_prog_evidence_payloads.py:174-197 | rows that all say the same are summarized as what they say, with two points of penalty for each second from the fifth on, up to forty |
| EvidenceScores.ScoresPermuted | scripts/generate_prog_evidence_payloads.py:174-219 | the scores do not depend on row order |
| EvidenceScores.ScoresMonotone | scripts/generate_prog_evidence_payloads.py:198-219 | among equally many rows, better components and smaller penalties never lower a score |
| EvidenceScores.FullReleaseIff | scripts/generate_prog_evidence_payloads.py:198-219 | release is full exactly with five rows or more, full components and no penalty |

## Left out

- File systems, processes, git, `ast.parse`, coverage runs, TOML parsing and the sign-in prompt: their results are parameters or arbitrary steps. Reads and writes succeed unless the code handles their failure.
- Regular expressions (gate headers, noise, evidence, ANSI codes) and `str.lower` as the deduplication key: parameters of the segmenter. Lower-casing elsewhere covers ASCII letters, and white space in plain strings reaches U+00A0.
- SHA-256 and HMAC: arbitrary functions, collision-free only where a lemma says so. No attacker is modelled; the marker file is written by the commands alone, while clock, index, HEAD and key file change freely.
- Floating point: reals without rounding, `round(..., 6)` included; the square root is any function. JSON numbers, NaN and Infinity are read but kept as their text.
- Time is whole microseconds (milliseconds in the watchdog), and a timestamp's ISO text reads back as the same time.
- `str()` of JSON values that are not strings: a parameter of the context reader.
- The 3000-character cut of a gate block and the look-up of model-written guidance: parameters of the context builder.
- Workboard messaging, presence and inbox gates, the daemon and the command line around the lease operations.
- Entries of a lease state file that are not claims. A missing or empty file, or one that is no JSON, reads as no claims. The line break that ends a state text counts as part of its last piece.
- The interleaved spend writers take the day from the clock; callers that pass a day of their own are covered by the lemmas about one call and about sequential runs.
- A tree holds files only: an empty corpus directory counts as none.
- Ranking of blast-radius tests, changed-line coverage and the independent verifier's rerun: the verification floor and the verifier are arbitrary answers.
- Windows paths in the corpus lock: a drive letter does not count as absolute here.
- The spellings `parse_posture` accepts: the decision takes the posture itself.
- The red overlay picture of the screenshot comparison.
- Reading parsers of result rows in the evidence payloads (`_row_success` and the like): rows come as parsed fields.
