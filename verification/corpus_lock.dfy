/** The frozen-corpus check of `evolve_supervisor/supervisor.py`: `_corpus_sha256` and
    `_corpus_lock_findings`. */
module CorpusLock {
  import opened Strings
  import opened RelPaths
  import opened SupervisorFindings

  type Bytes = seq<bv8>
  type Hash = Bytes -> string

  const CORPUS_DIR := "evolve_corpus"
  const LOCK_FILE := "LOCK.json"
  const CR: bv8 := 13
  const LF: bv8 := 10

  // ---------------------------------------------------------------- line endings

  /** `payload.replace(b"\r\n", b"\n")`. */
  function ReplaceCrlf(b: Bytes): Bytes {
    if b == [] then []
    else if |b| >= 2 && b[0] == CR && b[1] == LF then [LF] + ReplaceCrlf(b[2..])
    else [b[0]] + ReplaceCrlf(b[1..])
  }

  /** Git's check-out of text with CRLF line endings. */
  function ToCrlf(b: Bytes): Bytes {
    if b == [] then [] else (if b[0] == LF then [CR, LF] else [b[0]]) + ToCrlf(b[1..])
  }

  ghost predicate HasCrlf(b: Bytes) {
    exists i :: 0 <= i < |b| - 1 && b[i] == CR && b[i + 1] == LF
  }

  lemma ToCrlfNeverStartsWithLf(b: Bytes)
    ensures b != [] ==> ToCrlf(b) != [] && ToCrlf(b)[0] != LF
  {
  }

  /** Reading back what git materialized gives the committed bytes, whatever they are. */
  lemma {:induction false} CanonicalOfMaterialized(b: Bytes)
    ensures ReplaceCrlf(ToCrlf(b)) == b
  {
    if b != [] {
      var rest := ToCrlf(b[1..]);
      CanonicalOfMaterialized(b[1..]);
      assert b == [b[0]] + b[1..];
      if b[0] == LF {
        assert ([CR, LF] + rest)[2..] == rest;
      } else {
        ToCrlfNeverStartsWithLf(b[1..]);
        assert ([b[0]] + rest)[1..] == rest;
      }
    }
  }

  lemma {:induction false} ReplaceShrinks(b: Bytes)
    ensures |ReplaceCrlf(b)| <= |b|
  {
    if b == [] {
    } else if |b| >= 2 && b[0] == CR && b[1] == LF {
      ReplaceShrinks(b[2..]);
    } else {
      ReplaceShrinks(b[1..]);
    }
  }

  lemma HasCrlfStep(b: Bytes)
    requires b != []
    ensures HasCrlf(b) <==> (|b| >= 2 && b[0] == CR && b[1] == LF) || HasCrlf(b[1..])
  {
    if i :| 0 <= i < |b| - 1 && b[i] == CR && b[i + 1] == LF {
      assert i > 0 ==> b[1..][i - 1] == CR && b[1..][i] == LF;
    }
    if i :| 0 <= i < |b[1..]| - 1 && b[1..][i] == CR && b[1..][i + 1] == LF {
      assert b[i + 1] == CR && b[i + 2] == LF;
    }
  }

  /** Text is its own canonical form exactly when it holds no CRLF. */
  lemma {:induction false} CanonicalFixedIff(b: Bytes)
    ensures ReplaceCrlf(b) == b <==> !HasCrlf(b)
  {
    hide HasCrlf;
    if b == [] {
      NothingHasNoCrlf();
    } else {
      HasCrlfStep(b);
      if |b| >= 2 && b[0] == CR && b[1] == LF {
        ReplaceShrinks(b[2..]);
        assert |ReplaceCrlf(b)| < |b|;
      } else {
        CanonicalFixedIff(b[1..]);
        assert b == [b[0]] + b[1..];
        assert ReplaceCrlf(b)[1..] == ReplaceCrlf(b[1..]);
      }
    }
  }

  lemma NothingHasNoCrlf()
    ensures !HasCrlf([])
  {
  }

  predicate IsText(path: string) {
    Lower(Suffix(path)) in [".json", ".md", ".txt"]
  }

  /** `_corpus_sha256`. */
  function CorpusSha256(sha: Hash, path: string, payload: Bytes): string {
    sha(if IsText(path) then ReplaceCrlf(payload) else payload)
  }

  lemma {:induction false} LastDotAt(name: string, k: nat)
    requires k < |name| && name[k] == '.' && forall i :: k < i < |name| ==> name[i] != '.'
    ensures LastDot(name) == k
    decreases |name|
  {
    if k < |name| - 1 { LastDotAt(name[..|name| - 1], k); }
  }

  lemma LowerLengths(s: string)
    ensures |Lower(s)| == |s| && Lower("") == ""
  {
  }

  lemma PathNameIs(dir: string, name: string)
    requires '/' !in name && name != "" && name != "."
    ensures PathName(name) == name && PathName(dir + "/" + name) == name
  {
    SplitSepFree(name, '/');
    SplitConcat(dir, name, '/');
    assert dir + ['/'] + name == dir + "/" + name;
    assert Split(dir, '/') + [name] == Split(dir + "/" + name, '/');
  }

  /** A file is text for the hash exactly when what follows the last dot of its name reads json, md or txt, in
      any case, and something comes before that dot: then its CRLF line endings are hashed as LF, and else as
      they are. */
  lemma HashedByExtension(sha: Hash, dir: string, stem: string, ext: string, b: Bytes)
    requires stem + ext != "" && '/' !in stem && '/' !in ext && '.' !in ext
    ensures var read := Lower("." + ext);
            var text := stem != "" && (read == ".json" || read == ".md" || read == ".txt");
            var bytes := if text then ReplaceCrlf(b) else b;
            && CorpusSha256(sha, stem + "." + ext, b) == sha(bytes)
            && CorpusSha256(sha, dir + "/" + (stem + "." + ext), b) == sha(bytes)
  {
    var name := stem + "." + ext;
    hide Lower, LastDot, PathName, ReplaceCrlf;
    assert forall i :: |stem| < i < |name| ==> name[i] == ext[i - |stem| - 1];
    LastDotAt(name, |stem|);
    PathNameIs(dir, name);
    assert name[|stem|..] == "." + ext;
    assert Suffix(name) == (if stem != "" && ext != "" then "." + ext else "") == Suffix(dir + "/" + name);
    hide Suffix;
    assert |Lower("." + ext)| == |ext| + 1 && Lower("") == "" by { LowerLengths("." + ext); }
  }

  /** Checking a text file out with CRLF leaves its corpus hash alone exactly when it had no CRLF,
      under a hash that tells its canonical form from any other bytes it held. */
  lemma MaterializationKeepsHashIff(sha: Hash, path: string, b: Bytes)
    requires IsText(path) && (sha(ReplaceCrlf(b)) == sha(b) ==> ReplaceCrlf(b) == b)
    ensures CorpusSha256(sha, path, ToCrlf(b)) == CorpusSha256(sha, path, b) <==> !HasCrlf(b)
  {
    hide IsText;
    CanonicalOfMaterialized(b);
    CanonicalFixedIff(b);
  }

  // ---------------------------------------------------------------- the lock file

  /** A file of the corpus directory as the check finds it. */
  datatype CorpusFile = Unreadable | Content(payload: Bytes)

  /** The corpus directory: absent, without a lock file, with one that is not JSON, with one
      whose `files` is missing or empty, or with lock rows and the other files by path. */
  datatype Corpus =
    | NoDirectory
    | NoLockFile
    | LockNotJson
    | LockWithoutFiles
    | Locked(rows: seq<(string, string)>, files: map<string, CorpusFile>)

  function RelOf(raw: string): string { Strip(NormalizeRelpath(raw)) }

  function ExpectedOf(raw: string): string { Lower(Strip(raw)) }

  predicate ValidRow(row: (string, string)) {
    var rel := RelOf(row.0);
    && rel != "" && rel != LOCK_FILE && !("../" <= rel) && !("/" <= rel)
    && ".." !in Split(rel, '/') && ExpectedOf(row.1) != ""
  }

  /** The lock rows read as a map; a later row for the same path overrides an earlier one. */
  function LockMap(rows: seq<(string, string)>): map<string, string> {
    if rows == [] then map[]
    else
      var n := |rows| - 1;
      if ValidRow(rows[n]) then LockMap(rows[..n])[RelOf(rows[n].0) := ExpectedOf(rows[n].1)] else LockMap(rows[..n])
  }

  function Rejected(code: Code, rel: string): Finding { Finding(code, Reject, CORPUS_DIR + "/" + rel) }

  function RowFindings(rows: seq<(string, string)>): seq<Finding> {
    if rows == [] then []
    else
      var n := |rows| - 1;
      RowFindings(rows[..n]) + if ValidRow(rows[n]) then [] else [Rejected(CorpusLockInvalidEntry, RelOf(rows[n].0))]
  }

  /** What is wrong with a locked path, if anything. */
  function LockedPathFinding(sha: Hash, files: map<string, CorpusFile>, rel: string, expected: string): seq<Finding> {
    if rel !in files then [Rejected(CorpusFileMissing, rel)]
    else if files[rel].Unreadable? then [Rejected(CorpusFileUnreadable, rel)]
    else if Lower(CorpusSha256(sha, rel, files[rel].payload)) != expected then [Rejected(CorpusHashMismatch, rel)]
    else []
  }

  function LockedFindings(sha: Hash, files: map<string, CorpusFile>, locked: map<string, string>,
      rels: seq<string>): seq<Finding>
    requires forall rel :: rel in rels ==> rel in locked
  {
    if rels == [] then []
    else
      var n := |rels| - 1;
      LockedFindings(sha, files, locked, rels[..n]) + LockedPathFinding(sha, files, rels[n], locked[rels[n]])
  }

  function UnlockedFindings(rels: seq<string>): seq<Finding> {
    seq(|rels|, i requires 0 <= i < |rels| => Rejected(CorpusUnlockedFile, rels[i]))
  }

  /** The corpus files but for the lock file itself. */
  function ActualFiles(files: map<string, CorpusFile>): map<string, CorpusFile> { files - {LOCK_FILE} }

  function Findings(sha: Hash, corpus: Corpus): seq<Finding> {
    match corpus
    case NoDirectory => [Finding(CorpusMissing, Reject, CORPUS_DIR)]
    case NoLockFile => [Rejected(CorpusLockMissing, LOCK_FILE)]
    case LockNotJson => [Rejected(CorpusLockInvalid, LOCK_FILE)]
    case LockWithoutFiles => [Rejected(CorpusLockEmpty, LOCK_FILE)]
    case Locked(rows, files) =>
      if rows == [] then [Rejected(CorpusLockEmpty, LOCK_FILE)]
      else
        var locked, actual := LockMap(rows), ActualFiles(files);
        RowFindings(rows) + LockedFindings(sha, actual, locked, SortedKeys(locked.Keys))
        + UnlockedFindings(SortedKeys(actual.Keys - locked.Keys))
  }

  /** The first loop of `_corpus_lock_findings`. */
  method ReadRows(rows: seq<(string, string)>) returns (locked: map<string, string>, findings: seq<Finding>)
    ensures locked == LockMap(rows) && findings == RowFindings(rows)
  {
    hide ValidRow, RelOf, ExpectedOf, Rejected;
    locked, findings := map[], [];
    for i := 0 to |rows|
      invariant findings == RowFindings(rows[..i]) && locked == LockMap(rows[..i])
    {
      assert rows[..i + 1][..i] == rows[..i];
      var rel, expected := RelOf(rows[i].0), ExpectedOf(rows[i].1);
      if !ValidRow(rows[i]) {
        findings := findings + [Rejected(CorpusLockInvalidEntry, rel)];
        continue;
      }
      locked := locked[rel := expected];
    }
    assert rows[..|rows|] == rows;
  }

  lemma LockedFindingsStep(sha: Hash, files: map<string, CorpusFile>, locked: map<string, string>,
      rels: seq<string>, i: nat)
    requires i < |rels| && forall rel :: rel in rels ==> rel in locked
    ensures LockedFindings(sha, files, locked, rels[..i + 1])
            == LockedFindings(sha, files, locked, rels[..i]) + LockedPathFinding(sha, files, rels[i], locked[rels[i]])
  {
    assert rels[..i + 1][..i] == rels[..i];
  }

  /** The second loop: every locked path, in order, against the file it names. */
  method CheckLockedPaths(sha: Hash, actual: map<string, CorpusFile>, locked: map<string, string>)
    returns (findings: seq<Finding>)
    ensures findings == LockedFindings(sha, actual, locked, SortedKeys(locked.Keys))
  {
    hide Rejected, CorpusSha256, Lower, SortedKeys;
    findings := [];
    var rels := SortedKeys(locked.Keys);
    for i := 0 to |rels|
      invariant findings == LockedFindings(sha, actual, locked, rels[..i])
    {
      LockedFindingsStep(sha, actual, locked, rels, i);
      hide LockedFindings;
      var rel := rels[i];
      if rel !in actual {
        findings := findings + [Rejected(CorpusFileMissing, rel)];
        continue;
      }
      if actual[rel].Unreadable? {
        findings := findings + [Rejected(CorpusFileUnreadable, rel)];
        continue;
      }
      if Lower(CorpusSha256(sha, rel, actual[rel].payload)) != locked[rel] {
        findings := findings + [Rejected(CorpusHashMismatch, rel)];
      }
    }
    assert rels[..|rels|] == rels;
  }

  /** `_corpus_lock_findings`. */
  method CorpusLockFindings(sha: Hash, corpus: Corpus) returns (findings: seq<Finding>)
    ensures findings == Findings(sha, corpus)
  {
    hide Rejected, RowFindings, LockedFindings, LockMap;
    if corpus.NoDirectory? { return [Finding(CorpusMissing, Reject, CORPUS_DIR)]; }
    if corpus.NoLockFile? { return [Rejected(CorpusLockMissing, LOCK_FILE)]; }
    if corpus.LockNotJson? { return [Rejected(CorpusLockInvalid, LOCK_FILE)]; }
    if corpus.LockWithoutFiles? || corpus.rows == [] { return [Rejected(CorpusLockEmpty, LOCK_FILE)]; }

    var locked;
    locked, findings := ReadRows(corpus.rows);
    var actual := ActualFiles(corpus.files);
    var wrong := CheckLockedPaths(sha, actual, locked);
    findings := findings + wrong;
    ghost var sofar := findings;
    var extra := SortedKeys(actual.Keys - locked.Keys);
    for i := 0 to |extra|
      invariant findings == sofar + UnlockedFindings(extra[..i])
    {
      assert UnlockedFindings(extra[..i + 1])
              == UnlockedFindings(extra[..i]) + [Rejected(CorpusUnlockedFile, extra[i])];
      findings := findings + [Rejected(CorpusUnlockedFile, extra[i])];
    }
    assert extra[..|extra|] == extra;
  }

  // ---------------------------------------------------------------- exactness

  lemma {:induction false} RowFindingsEmptyIff(rows: seq<(string, string)>)
    ensures RowFindings(rows) == [] <==> forall i :: 0 <= i < |rows| ==> ValidRow(rows[i])
  {
    hide ValidRow;
    if rows != [] {
      var n := |rows| - 1;
      RowFindingsEmptyIff(rows[..n]);
      assert forall i :: 0 <= i < n ==> rows[..n][i] == rows[i];
    }
  }

  lemma {:induction false} LockedFindingsEmptyIff(sha: Hash, files: map<string, CorpusFile>,
      locked: map<string, string>, rels: seq<string>)
    requires forall rel :: rel in rels ==> rel in locked
    ensures LockedFindings(sha, files, locked, rels) == []
            <==> forall rel :: rel in rels ==> LockedPathFinding(sha, files, rel, locked[rel]) == []
  {
    hide LockedPathFinding, CorpusSha256;
    if rels != [] {
      var n := |rels| - 1;
      LockedFindingsEmptyIff(sha, files, locked, rels[..n]);
      LockedFindingsStep(sha, files, locked, rels, n);
      hide LockedFindings;
      assert rels[..n + 1] == rels;
      assert forall rel :: rel in rels <==> rel in rels[..n] || rel == rels[n];
    }
  }

  /** Every file can be read, and these are the paths with their canonical hashes. */
  ghost predicate HashMapIs(sha: Hash, files: map<string, CorpusFile>, locked: map<string, string>) {
    && files.Keys == locked.Keys
    && forall rel :: rel in files ==>
            files[rel].Content? && locked[rel] == Lower(CorpusSha256(sha, rel, files[rel].payload))
  }

  lemma PathClearIff(sha: Hash, files: map<string, CorpusFile>, rel: string, expected: string)
    ensures LockedPathFinding(sha, files, rel, expected) == []
            <==> rel in files && files[rel].Content? && expected == Lower(CorpusSha256(sha, rel, files[rel].payload))
  {
    hide CorpusSha256, Lower, Rejected;
  }

  /** The last two loops find nothing exactly when the locked map is the corpus itself. */
  lemma MapsAgreeIff(sha: Hash, actual: map<string, CorpusFile>, locked: map<string, string>)
    ensures LockedFindings(sha, actual, locked, SortedKeys(locked.Keys))
            + UnlockedFindings(SortedKeys(actual.Keys - locked.Keys)) == []
            <==> HashMapIs(sha, actual, locked)
  {
    hide LockedPathFinding, CorpusSha256, Lower, LockedFindings, SortedKeys;
    var rels, extra := SortedKeys(locked.Keys), SortedKeys(actual.Keys - locked.Keys);
    LockedFindingsEmptyIff(sha, actual, locked, rels);
    ExtraIffUnlocked(actual.Keys, locked.Keys);
    forall rel | rel in locked
      ensures LockedPathFinding(sha, actual, rel, locked[rel]) == []
              <==> rel in actual && actual[rel].Content?
                   && locked[rel] == Lower(CorpusSha256(sha, rel, actual[rel].payload))
    {
      PathClearIff(sha, actual, rel, locked[rel]);
    }
    assert forall rel :: rel in rels <==> rel in locked;
  }

  /** A non-empty lock draws no finding exactly when each of its rows is valid and the map it
      stands for is the corpus itself, path by path and hash by hash. */
  lemma NoFindingsIff(sha: Hash, corpus: Corpus)
    ensures Findings(sha, corpus) == []
            <==> corpus.Locked? && corpus.rows != []
                 && (forall i :: 0 <= i < |corpus.rows| ==> ValidRow(corpus.rows[i]))
                 && HashMapIs(sha, ActualFiles(corpus.files), LockMap(corpus.rows))
  {
    hide ValidRow, LockMap, ActualFiles, RowFindings, LockedFindings, UnlockedFindings, Rejected, HashMapIs;
    if corpus.Locked? {
      RowFindingsEmptyIff(corpus.rows);
      MapsAgreeIff(sha, ActualFiles(corpus.files), LockMap(corpus.rows));
    }
  }

  lemma {:induction false} RowFindingsName(rows: seq<(string, string)>, f: Finding)
    ensures f in RowFindings(rows)
            <==> exists i :: 0 <= i < |rows| && !ValidRow(rows[i])
                   && f == Rejected(CorpusLockInvalidEntry, RelOf(rows[i].0))
  {
    hide ValidRow, RelOf, Rejected;
    if rows != [] {
      var n := |rows| - 1;
      RowFindingsName(rows[..n], f);
      assert forall i :: 0 <= i < n ==> rows[..n][i] == rows[i];
    }
  }

  lemma {:induction false} LockedFindingsName(sha: Hash, files: map<string, CorpusFile>, locked: map<string, string>,
      rels: seq<string>, f: Finding)
    requires forall rel :: rel in rels ==> rel in locked
    ensures f in LockedFindings(sha, files, locked, rels)
            <==> exists rel :: rel in rels && f in LockedPathFinding(sha, files, rel, locked[rel])
  {
    hide LockedPathFinding;
    if rels != [] {
      var n := |rels| - 1;
      LockedFindingsName(sha, files, locked, rels[..n], f);
      LockedFindingsStep(sha, files, locked, rels, n);
      hide LockedFindings;
      assert rels[..n + 1] == rels;
      assert forall rel :: rel in rels <==> rel in rels[..n] || rel == rels[n];
    }
  }

  /** The path a finding names. */
  function Below(rel: string): string { "evolve_corpus/" + rel }

  lemma BelowOnce(a: string, b: string)
    ensures Below(a) == Below(b) <==> a == b
  {
    assert Below(a)[|"evolve_corpus/"|..] == a && Below(b)[|"evolve_corpus/"|..] == b;
  }

  /** What each finding about a path of a non-empty lock says: a row that is not valid; a locked path without
      a file, with one that cannot be read, or with one whose hash differs; a file nobody locked. */
  ghost predicate Deserves(sha: Hash, rows: seq<(string, string)>, actual: map<string, CorpusFile>, rel: string,
      code: Code)
  {
    var locked := LockMap(rows);
    match code
    case CorpusLockInvalidEntry => exists i :: 0 <= i < |rows| && !ValidRow(rows[i]) && RelOf(rows[i].0) == rel
    case CorpusFileMissing => rel in locked && rel !in actual
    case CorpusFileUnreadable => rel in locked && rel in actual && actual[rel].Unreadable?
    case CorpusHashMismatch =>
      rel in locked && rel in actual && actual[rel].Content?
      && Lower(CorpusSha256(sha, rel, actual[rel].payload)) != locked[rel]
    case CorpusUnlockedFile => rel in actual && rel !in locked
    case _ => false
  }

  /** A finding about a path is made exactly when the path deserves it. */
  lemma FindingsName(sha: Hash, rows: seq<(string, string)>, files: map<string, CorpusFile>, rel: string, code: Code)
    requires rows != []
    ensures Finding(code, Reject, Below(rel)) in Findings(sha, Locked(rows, files))
            <==> Deserves(sha, rows, ActualFiles(files), rel, code)
  {
    hide ValidRow, RelOf, LockMap, RowFindings, LockedFindings, SortedKeys, CorpusSha256, Lower, ActualFiles,
        LockedPathFinding;
    var f := Finding(code, Reject, Below(rel));
    var locked, actual := LockMap(rows), ActualFiles(files);
    RowFindingsName(rows, f);
    LockedFindingsName(sha, actual, locked, SortedKeys(locked.Keys), f);
    forall other {:trigger Below(other)} ensures Below(other) == Below(rel) <==> other == rel {
      BelowOnce(other, rel);
    }
    forall other ensures Rejected(code, other) == Finding(code, Reject, Below(other)) {
      RejectedIs(code, other);
    }
    UnlockedName(SortedKeys(actual.Keys - locked.Keys), f, rel, code);
    NameOfLocked(sha, actual, locked, rel, code);
    NameOfRow(rows, rel, code);
  }

  lemma RejectedIs(code: Code, rel: string)
    ensures Rejected(code, rel) == Finding(code, Reject, Below(rel))
  {
    assert CORPUS_DIR + "/" == "evolve_corpus/";
  }

  lemma NameOfRow(rows: seq<(string, string)>, rel: string, code: Code)
    ensures (exists i :: 0 <= i < |rows| && !ValidRow(rows[i])
                         && Finding(code, Reject, Below(rel)) == Rejected(CorpusLockInvalidEntry, RelOf(rows[i].0)))
            <==> code == CorpusLockInvalidEntry
                 && exists i :: 0 <= i < |rows| && !ValidRow(rows[i]) && RelOf(rows[i].0) == rel
  {
    hide ValidRow, RelOf, Rejected, Below;
    forall i | 0 <= i < |rows|
      ensures Finding(code, Reject, Below(rel)) == Rejected(CorpusLockInvalidEntry, RelOf(rows[i].0))
              <==> code == CorpusLockInvalidEntry && RelOf(rows[i].0) == rel
    {
      RejectedIs(CorpusLockInvalidEntry, RelOf(rows[i].0));
      BelowOnce(rel, RelOf(rows[i].0));
    }
  }

  lemma UnlockedName(rels: seq<string>, f: Finding, rel: string, code: Code)
    requires f == Finding(code, Reject, Below(rel))
    ensures f in UnlockedFindings(rels) <==> code == CorpusUnlockedFile && rel in rels
  {
    hide Rejected, Below;
    forall other ensures Rejected(CorpusUnlockedFile, other) == f <==> code == CorpusUnlockedFile && other == rel {
      RejectedIs(CorpusUnlockedFile, other);
      BelowOnce(other, rel);
    }
    if rel in rels {
      var i :| 0 <= i < |rels| && rels[i] == rel;
      assert UnlockedFindings(rels)[i] == Rejected(CorpusUnlockedFile, rel);
    }
  }

  lemma NameOfLocked(sha: Hash, files: map<string, CorpusFile>, locked: map<string, string>, rel: string, code: Code)
    ensures (exists other :: other in locked
                     && Finding(code, Reject, Below(rel)) in LockedPathFinding(sha, files, other, locked[other]))
            <==> rel in locked
                 && match code
                    case CorpusFileMissing => rel !in files
                    case CorpusFileUnreadable => rel in files && files[rel].Unreadable?
                    case CorpusHashMismatch =>
                      rel in files && files[rel].Content?
                      && Lower(CorpusSha256(sha, rel, files[rel].payload)) != locked[rel]
                    case _ => false
  {
    hide Rejected, Below, CorpusSha256, Lower;
    forall other | other in locked
      ensures Finding(code, Reject, Below(rel)) in LockedPathFinding(sha, files, other, locked[other]) ==> other == rel
    {
      BelowOnce(other, rel);
      RejectedIs(CorpusFileMissing, other);
      RejectedIs(CorpusFileUnreadable, other);
      RejectedIs(CorpusHashMismatch, other);
    }
    RejectedIs(CorpusFileMissing, rel);
    RejectedIs(CorpusFileUnreadable, rel);
    RejectedIs(CorpusHashMismatch, rel);
  }

  lemma ExtraIffUnlocked(actual: set<string>, locked: set<string>)
    ensures SortedKeys(actual - locked) == [] <==> actual <= locked
  {
    var extra := SortedKeys(actual - locked);
    assert forall x :: x in extra <==> x in actual && x !in locked;
    assert extra != [] ==> extra[0] in extra;
  }

  /** Whatever is found is a reason to reject. */
  lemma {:induction false} RowFindingsReject(rows: seq<(string, string)>)
    ensures forall f :: f in RowFindings(rows) ==> f.severity.Reject?
  {
    hide ValidRow;
    if rows != [] { RowFindingsReject(rows[..|rows| - 1]); }
  }

  lemma {:induction false} LockedFindingsReject(sha: Hash, files: map<string, CorpusFile>,
      locked: map<string, string>, rels: seq<string>)
    requires forall rel :: rel in rels ==> rel in locked
    ensures forall f :: f in LockedFindings(sha, files, locked, rels) ==> f.severity.Reject?
  {
    if rels != [] { LockedFindingsReject(sha, files, locked, rels[..|rels| - 1]); }
  }

  lemma FindingsReject(sha: Hash, corpus: Corpus)
    ensures forall f :: f in Findings(sha, corpus) ==> f.severity.Reject?
  {
    hide LockMap, RowFindings, LockedFindings;
    if corpus.Locked? {
      RowFindingsReject(corpus.rows);
      LockedFindingsReject(sha, ActualFiles(corpus.files), LockMap(corpus.rows), SortedKeys(LockMap(corpus.rows).Keys));
    }
  }

  lemma {:induction false} LockMapKeys(rows: seq<(string, string)>, rel: string)
    requires rel in LockMap(rows)
    ensures exists i :: 0 <= i < |rows| && ValidRow(rows[i]) && RelOf(rows[i].0) == rel
  {
    hide ValidRow, RelOf, ExpectedOf;
    var n := |rows| - 1;
    if !(ValidRow(rows[n]) && RelOf(rows[n].0) == rel) {
      LockMapKeys(rows[..n], rel);
    }
  }

  /** The map gives each path the hash of the last valid row that names it. */
  lemma {:induction false} LastRowWins(rows: seq<(string, string)>, i: nat)
    requires i < |rows| && ValidRow(rows[i])
    requires forall j :: i < j < |rows| ==> !(ValidRow(rows[j]) && RelOf(rows[j].0) == RelOf(rows[i].0))
    ensures RelOf(rows[i].0) in LockMap(rows) && LockMap(rows)[RelOf(rows[i].0)] == Lower(Strip(rows[i].1))
  {
    hide ValidRow, RelOf, Lower, Strip;
    var n := |rows| - 1;
    if i < n {
      assert !(ValidRow(rows[n]) && RelOf(rows[n].0) == RelOf(rows[i].0));
      LastRowWins(rows[..n], i);
    }
  }

  // ---------------------------------------------------------------- which corpus can be locked

  /** The paths a lock row can name. */
  predicate Lockable(rel: string) {
    && '\\' !in rel && Strip(rel) == rel
    && rel != "" && rel != LOCK_FILE && !("../" <= rel) && !("/" <= rel) && ".." !in Split(rel, '/')
  }

  lemma RelHasNoBackslash(raw: string)
    ensures '\\' !in RelOf(raw)
  {
    var norm := NormalizeRelpath(raw);
    NormalizedIsNormal(raw);
    var left := TrimLeft(norm, IsSpace);
    assert left == norm[|norm| - |left|..];
    assert RelOf(raw) == left[..|RelOf(raw)|];
  }

  lemma RelIsStripped(raw: string)
    ensures Strip(RelOf(raw)) == RelOf(raw)
  {
    hide Strip, NormalizeRelpath;
    StripIdempotent(NormalizeRelpath(raw));
  }

  /** A leading blank saves a path from losing its leading dots and slashes. */
  lemma BlankKeyNames(rel: string)
    requires '\\' !in rel && Strip(rel) == rel && rel != ""
    ensures RelOf(" " + rel) == rel
  {
    hide Strip, NormalizeRelpath;
    NormalizeFixedIff(" " + rel);
    StripBlankFirst(rel);
  }

  /** Some row can lock a path exactly when it holds no backslash, neither starts nor ends with
      white space, and is a proper path below the corpus: dot files, by a key with a leading blank. */
  lemma LockableIff(rel: string)
    ensures (exists row :: ValidRow(row) && RelOf(row.0) == rel) <==> Lockable(rel)
  {
    hide Strip, RelOf, Split, ExpectedOf;
    if row :| ValidRow(row) && RelOf(row.0) == rel {
      RelHasNoBackslash(row.0);
      RelIsStripped(row.0);
    }
    if Lockable(rel) {
      BlankKeyNames(rel);
      SomeHash();
      assert ValidRow((" " + rel, "0"));
    }
  }

  lemma SomeHash()
    ensures ExpectedOf("0") != ""
  {
    StripFixed("0");
  }

  /** The path itself will do as the key exactly when it is also spelled without leading dot or slash. */
  lemma OwnNameLocksIff(rel: string)
    ensures RelOf(rel) == rel <==> NormalRel(rel) && Strip(rel) == rel
  {
    NormalizeFixedIff(rel);
    if RelOf(rel) == rel {
      var slashed, norm := Slashed(rel), NormalizeRelpath(rel);
      assert |Strip(norm)| <= |norm| <= |slashed| == |rel|;
      assert norm == slashed && TrimLeft(norm, IsSpace) == norm && Strip(norm) == norm;
    }
  }

  /** Rows for the given files, one a file, by keys that start with a blank. */
  function RowsFor(sha: Hash, files: map<string, CorpusFile>, rels: seq<string>): seq<(string, string)>
    requires forall rel :: rel in rels ==> rel in files && files[rel].Content?
  {
    if rels == [] then []
    else
      var n := |rels| - 1;
      RowsFor(sha, files, rels[..n]) + [(" " + rels[n], CorpusSha256(sha, rels[n], files[rels[n]].payload))]
  }

  /** A hash as `hexdigest` spells it: some text without blanks around it. */
  ghost predicate Spelled(sha: Hash) {
    forall b :: sha(b) != "" && Strip(sha(b)) == sha(b)
  }

  /** These rows are valid, one for each of the given paths, and lock it with its present hash. */
  ghost predicate LockAll(rows: seq<(string, string)>, sha: Hash, files: map<string, CorpusFile>, rels: seq<string>)
    requires forall rel :: rel in rels ==> rel in files && files[rel].Content?
  {
    && |rows| == |rels| && (forall i :: 0 <= i < |rows| ==> rows[i].0 == " " + rels[i] && ValidRow(rows[i]))
    && (forall rel :: rel in LockMap(rows) <==> rel in rels)
    && forall rel :: rel in rels ==> LockMap(rows)[rel] == Lower(CorpusSha256(sha, rel, files[rel].payload))
  }

  lemma LockMapStep(rows: seq<(string, string)>, row: (string, string))
    requires ValidRow(row)
    ensures LockMap(rows + [row]) == LockMap(rows)[RelOf(row.0) := ExpectedOf(row.1)]
  {
    hide ValidRow, RelOf, ExpectedOf;
    assert (rows + [row])[..|rows|] == rows;
  }

  lemma LockAllStep(rows: seq<(string, string)>, sha: Hash, files: map<string, CorpusFile>, rels: seq<string>,
      rel: string)
    requires forall r :: r in rels + [rel] ==> r in files && files[r].Content?
    requires LockAll(rows, sha, files, rels)
    requires var row := (" " + rel, CorpusSha256(sha, rel, files[rel].payload));
             ValidRow(row) && RelOf(row.0) == rel && ExpectedOf(row.1) == Lower(row.1)
    ensures LockAll(rows + [(" " + rel, CorpusSha256(sha, rel, files[rel].payload))], sha, files, rels + [rel])
  {
    hide CorpusSha256, ValidRow, RelOf, ExpectedOf, Lower, LockMap;
    LockMapStep(rows, (" " + rel, CorpusSha256(sha, rel, files[rel].payload)));
  }

  lemma {:induction false} RowsForLock(sha: Hash, files: map<string, CorpusFile>, rels: seq<string>)
    requires Spelled(sha)
    requires forall rel :: rel in rels ==> rel in files && files[rel].Content? && Lockable(rel)
    ensures LockAll(RowsFor(sha, files, rels), sha, files, rels)
  {
    hide Lockable, CorpusSha256, ValidRow, RelOf, ExpectedOf, Lower, Spelled, LockAll;
    if rels == [] {
      NoRowsLockNothing(sha, files);
    } else {
      var n := |rels| - 1;
      RowsForLock(sha, files, rels[..n]);
      RowFor(sha, files, rels[n]);
      var front := RowsFor(sha, files, rels[..n]);
      var row := (" " + rels[n], CorpusSha256(sha, rels[n], files[rels[n]].payload));
      assert RowsFor(sha, files, rels) == front + [row];
      hide RowsFor;
      assert rels == rels[..n] + [rels[n]];
      LockAllStep(front, sha, files, rels[..n], rels[n]);
    }
  }

  lemma NoRowsLockNothing(sha: Hash, files: map<string, CorpusFile>)
    ensures LockAll([], sha, files, [])
  {
  }

  lemma RowFor(sha: Hash, files: map<string, CorpusFile>, rel: string)
    requires Spelled(sha) && rel in files && files[rel].Content? && Lockable(rel)
    ensures var row := (" " + rel, CorpusSha256(sha, rel, files[rel].payload));
            ValidRow(row) && RelOf(row.0) == rel && ExpectedOf(row.1) == Lower(row.1)
  {
    hide Strip, RelOf, Split, CorpusSha256;
    BlankKeyNames(rel);
    assert forall b :: sha(b) != "" && Strip(sha(b)) == sha(b);
    HashIsSpelled(sha, rel, files[rel].payload);
  }

  lemma HashIsSpelled(sha: Hash, rel: string, payload: Bytes)
    requires Spelled(sha)
    ensures CorpusSha256(sha, rel, payload) != ""
    ensures Strip(CorpusSha256(sha, rel, payload)) == CorpusSha256(sha, rel, payload)
  {
    hide Strip, IsText;
  }

  /** The rows of a lock, being a JSON object's, have different keys. */
  ghost predicate Keyed(rows: seq<(string, string)>) {
    forall i, j :: 0 <= i < j < |rows| ==> rows[i].0 != rows[j].0
  }

  lemma {:induction false} ValidRowIsLocked(rows: seq<(string, string)>, i: nat)
    requires i < |rows| && ValidRow(rows[i])
    ensures RelOf(rows[i].0) in LockMap(rows)
  {
    hide ValidRow, RelOf, ExpectedOf;
    if i < |rows| - 1 { ValidRowIsLocked(rows[..|rows| - 1], i); }
  }

  /** A corpus file that cannot be locked draws a finding whatever the lock says. */
  lemma UnlockableNeverClean(sha: Hash, corpus: Corpus, rel: string)
    requires corpus.Locked? && rel in ActualFiles(corpus.files)
    requires !(Lockable(rel) && corpus.files[rel].Content?)
    ensures Findings(sha, corpus) != []
  {
    hide ValidRow, CorpusSha256, Findings, Lower, Lockable, RelOf;
    NoFindingsIff(sha, corpus);
    if rel in LockMap(corpus.rows) {
      LockMapKeys(corpus.rows, rel);
      LockableIff(rel);
    }
  }

  /** Some lock makes the check pass exactly when there is something to lock, all of it can be read,
      and every path can be locked. */
  lemma CorpusCanBeLockedIff(sha: Hash, files: map<string, CorpusFile>)
    requires Spelled(sha)
    ensures (exists rows :: Keyed(rows) && Findings(sha, Locked(rows, files)) == [])
            <==> ActualFiles(files) != map[]
                 && forall rel :: rel in ActualFiles(files) ==> Lockable(rel) && files[rel].Content?
  {
    hide ValidRow, CorpusSha256, Findings, Lower, Lockable, RelOf, LockMap, Spelled, RowsFor;
    var actual := ActualFiles(files);
    if rows :| Keyed(rows) && Findings(sha, Locked(rows, files)) == [] {
      NoFindingsIff(sha, Locked(rows, files));
      ValidRowIsLocked(rows, 0);
      forall rel | rel in actual ensures Lockable(rel) && files[rel].Content? {
        if !(Lockable(rel) && files[rel].Content?) { UnlockableNeverClean(sha, Locked(rows, files), rel); }
      }
    }
    if actual != map[] && forall rel :: rel in actual ==> Lockable(rel) && files[rel].Content? {
      var rows := CanBeLocked(sha, files);
      assert Keyed(rows) && Findings(sha, Locked(rows, files)) == [];
    }
  }

  lemma CanBeLocked(sha: Hash, files: map<string, CorpusFile>) returns (rows: seq<(string, string)>)
    requires Spelled(sha) && ActualFiles(files) != map[]
    requires forall rel :: rel in ActualFiles(files) ==> Lockable(rel) && files[rel].Content?
    ensures Keyed(rows) && Findings(sha, Locked(rows, files)) == []
  {
    hide ValidRow, CorpusSha256, Findings, Lower, Lockable, LockMap, Spelled, RowsFor, SortedKeys;
    var actual := ActualFiles(files);
    var rels := SortedKeys(actual.Keys);
    RowsForLock(sha, actual, rels);
    rows := RowsFor(sha, actual, rels);
    SomeKey(actual);
    assert forall i :: 0 <= i < |rows| ==> rows[i].0[1..] == rels[i];
    assert LockMap(rows).Keys == actual.Keys;
    NoFindingsIff(sha, Locked(rows, files));
  }

  lemma SomeKey(files: map<string, CorpusFile>)
    requires files != map[]
    ensures SortedKeys(files.Keys) != []
  {
    var rel :| rel in files;
    assert rel in SortedKeys(files.Keys);
  }

  // ---------------------------------------------------------------- checking out on another system

  /** The files after git checks the text ones out with CRLF line endings. */
  function Materialized(files: map<string, CorpusFile>): map<string, CorpusFile> {
    map rel | rel in files ::
      if files[rel].Content? && IsText(rel) then Content(ToCrlf(files[rel].payload)) else files[rel]
  }

  lemma MaterializedPathFinding(sha: Hash, files: map<string, CorpusFile>, rel: string, expected: string)
    requires rel in files && files[rel].Content? && IsText(rel) ==> !HasCrlf(files[rel].payload)
    ensures LockedPathFinding(sha, Materialized(files), rel, expected) == LockedPathFinding(sha, files, rel, expected)
  {
    hide IsText, Lower, Rejected;
    if rel in files && files[rel].Content? && IsText(rel) {
      CanonicalOfMaterialized(files[rel].payload);
      CanonicalFixedIff(files[rel].payload);
    }
  }

  lemma {:induction false} MaterializedLockedFindings(sha: Hash, files: map<string, CorpusFile>,
      locked: map<string, string>, rels: seq<string>)
    requires forall rel :: rel in rels ==> rel in locked
    requires forall rel :: rel in files && files[rel].Content? && IsText(rel) ==> !HasCrlf(files[rel].payload)
    ensures LockedFindings(sha, Materialized(files), locked, rels) == LockedFindings(sha, files, locked, rels)
  {
    hide LockedPathFinding, IsText, HasCrlf, Materialized;
    if rels != [] {
      var n := |rels| - 1;
      MaterializedLockedFindings(sha, files, locked, rels[..n]);
      MaterializedPathFinding(sha, files, rels[n], locked[rels[n]]);
    }
  }

  /** The check answers the same on a CRLF check-out of a corpus whose text holds no CRLF. */
  lemma CheckoutKeepsFindings(sha: Hash, corpus: Corpus)
    requires corpus.Locked?
    requires forall rel :: rel in corpus.files && corpus.files[rel].Content? && IsText(rel) ==>
            !HasCrlf(corpus.files[rel].payload)
    ensures Findings(sha, corpus.(files := Materialized(corpus.files))) == Findings(sha, corpus)
  {
    hide IsText, HasCrlf, LockMap, RowFindings, LockedFindings;
    var actual := ActualFiles(corpus.files);
    assert ActualFiles(Materialized(corpus.files)) == Materialized(actual);
    var locked := LockMap(corpus.rows);
    MaterializedLockedFindings(sha, actual, locked, SortedKeys(locked.Keys));
    assert Materialized(actual).Keys == actual.Keys;
  }
}
