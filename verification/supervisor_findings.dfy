/** What the supervisor reports against a candidate. */
module SupervisorFindings {

  datatype Code =
    | NoRederivedChanges
    | CorpusMissing | CorpusLockMissing | CorpusLockInvalid | CorpusLockEmpty | CorpusLockInvalidEntry
    | CorpusFileMissing | CorpusFileUnreadable | CorpusHashMismatch | CorpusUnlockedFile
    | ProtectedPathChanged | TestInfraChanged | LoopPackageNewFile | SupervisorPackageChanged
    | VerificationFloorMissing

  datatype Severity = Reject | Advisory

  datatype Finding = Finding(code: Code, severity: Severity, path: string)

  predicate AnyRejects(findings: seq<Finding>) {
    exists i :: 0 <= i < |findings| && findings[i].severity.Reject?
  }
}
