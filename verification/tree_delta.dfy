/** The blue-to-green delta of `evolve_supervisor/supervisor.py`. */
module TreeDelta {
  import opened Strings

  type Bytes = seq<bv8>
  type Hash = Bytes -> string

  /** A working tree: where its root lies, and its files by path relative to the root. */
  datatype Tree = Tree(rootParts: seq<string>, files: map<string, Bytes>)

  const SCOPE_DIRS := ["thomas", "scripts", "tests", "definitions", "evolve_supervisor", "evolve_corpus"]
  const SCOPE_FILES := {
    "pyproject.toml", "README.md", "CHANGELOG.md", "thomas.toml", "pytest.ini", "run-ui.cmd", "run-repl.cmd",
    ".gitignore", "SOUL.md"}
  const CACHE_DIRS := {"__pycache__", ".pytest_cache", ".mypy_cache", ".ruff_cache"}

  predicate UnderScopeDir(rel: string) {
    exists k :: 0 <= k < |SCOPE_DIRS| && SCOPE_DIRS[k] + "/" <= rel
  }

  predicate Cached(parts: seq<string>) {
    exists k :: 0 <= k < |parts| && parts[k] in CACHE_DIRS
  }

  /** A listed file, or a file below a listed directory that is neither bytecode nor in a cache.
      The cache test looks at the whole path, root included. */
  predicate InScope(rootParts: seq<string>, rel: string) {
    rel in SCOPE_FILES || (UnderScopeDir(rel) && !EndsWith(rel, ".pyc") && !Cached(rootParts + Split(rel, '/')))
  }

  const NAMED_DIRS := {"thomas", "scripts", "tests", "definitions", "evolve_supervisor", "evolve_corpus"}

  lemma BelowDirIff(rel: string, dir: string)
    requires '/' !in dir
    ensures dir + "/" <= rel <==> |Split(rel, '/')| >= 2 && Split(rel, '/')[0] == dir
  {
    SplitSepFree(dir, '/');
    PrefixIsPartPrefix(rel, dir, '/');
    assert dir + "/" == dir + ['/'];
    if |Split(rel, '/')| >= 2 && Split(rel, '/')[0] == dir {
      assert [dir] <= Split(rel, '/');
    }
  }

  /** In scope are, besides the listed files, the paths of two components or more whose first is a listed
      directory, which are no bytecode and have no cache directory among the components of root and path. */
  lemma InScopeIff(rootParts: seq<string>, rel: string)
    ensures var parts := Split(rel, '/');
            InScope(rootParts, rel)
            <==> rel in SCOPE_FILES
                 || (|parts| >= 2 && parts[0] in NAMED_DIRS && !EndsWith(rel, ".pyc")
                     && !exists part :: part in rootParts + parts && part in CACHE_DIRS)
  {
    hide Split, EndsWith;
    var parts := rootParts + Split(rel, '/');
    assert UnderScopeDir(rel) <==> exists dir :: dir in NAMED_DIRS && dir + "/" <= rel by {
      assert forall k :: 0 <= k < |SCOPE_DIRS| ==> SCOPE_DIRS[k] in NAMED_DIRS;
      assert forall dir :: dir in NAMED_DIRS ==> dir in SCOPE_DIRS;
    }
    forall dir | dir in NAMED_DIRS
      ensures dir + "/" <= rel <==> |Split(rel, '/')| >= 2 && Split(rel, '/')[0] == dir
    {
      BelowDirIff(rel, dir);
    }
    assert Cached(parts) <==> exists part :: part in parts && part in CACHE_DIRS;
  }

  /** `_iter_scope_files`. */
  function ScopeFiles(tree: Tree): map<string, Bytes> {
    map rel | rel in tree.files && InScope(tree.rootParts, rel) :: tree.files[rel]
  }

  /** A tree whose root lies inside a cache directory shows nothing but the listed files, and one
      whose root does not shows what it would show anywhere else. */
  lemma RootHidesIff(tree: Tree)
    ensures Cached(tree.rootParts) ==>
              forall rel :: rel in ScopeFiles(tree) <==> rel in tree.files && rel in SCOPE_FILES
    ensures ScopeFiles(tree) == ScopeFiles(Tree([], tree.files)) <==>
            !Cached(tree.rootParts) || forall rel :: rel in ScopeFiles(Tree([], tree.files)) ==> rel in SCOPE_FILES
  {
    hide UnderScopeDir, Cached, SCOPE_FILES;
    var elsewhere := Tree([], tree.files);
    forall rel ensures InScope(tree.rootParts, rel) <==>
                       rel in SCOPE_FILES || (!Cached(tree.rootParts) && InScope([], rel))
    {
      CachedEither(tree.rootParts, Split(rel, '/'));
      assert [] + Split(rel, '/') == Split(rel, '/');
    }
    if Cached(tree.rootParts) && (forall rel :: rel in ScopeFiles(elsewhere) ==> rel in SCOPE_FILES) {
      assert ScopeFiles(tree).Keys == ScopeFiles(elsewhere).Keys;
    }
    if !Cached(tree.rootParts) {
      assert ScopeFiles(tree).Keys == ScopeFiles(elsewhere).Keys;
    }
  }

  lemma CachedEither(root: seq<string>, parts: seq<string>)
    ensures Cached(root + parts) <==> Cached(root) || Cached(parts)
  {
    if k :| 0 <= k < |root| && root[k] in CACHE_DIRS {
      assert (root + parts)[k] in CACHE_DIRS;
    }
    if k :| 0 <= k < |parts| && parts[k] in CACHE_DIRS {
      assert (root + parts)[|root| + k] in CACHE_DIRS;
    }
  }

  datatype Delta = Delta(added: seq<string>, modified: seq<string>, removed: seq<string>) {
    function ChangedFiles(): seq<string> { added + modified + removed }
  }

  datatype Change = Added | Modified | Removed | Same

  function ChangeOf(blue: map<string, Bytes>, green: map<string, Bytes>, sha: Hash, rel: string): Change {
    if rel !in blue && rel in green then Added
    else if rel in blue && rel !in green then Removed
    else if rel in blue && rel in green && sha(blue[rel]) != sha(green[rel]) then Modified
    else Same
  }

  /** The paths that changed in one way, in path order. */
  ghost predicate Lists(paths: seq<string>, blue: map<string, Bytes>, green: map<string, Bytes>, sha: Hash,
      change: Change) {
    && StrictlySorted(paths)
    && forall rel :: rel in paths <==> rel in blue.Keys + green.Keys && ChangeOf(blue, green, sha, rel) == change
  }

  ghost predicate IsDelta(delta: Delta, blue: map<string, Bytes>, green: map<string, Bytes>, sha: Hash) {
    && Lists(delta.added, blue, green, sha, Added)
    && Lists(delta.modified, blue, green, sha, Modified)
    && Lists(delta.removed, blue, green, sha, Removed)
  }

  /** `collect_tree_delta`: each list is sorted and holds exactly the paths that changed its way. */
  method CollectTreeDelta(blueTree: Tree, greenTree: Tree, sha: Hash) returns (delta: Delta)
    ensures IsDelta(delta, ScopeFiles(blueTree), ScopeFiles(greenTree), sha)
  {
    hide ScopeFiles, Part, Lists;
    var blue, green := ScopeFiles(blueTree), ScopeFiles(greenTree);
    var added: seq<string>, modified: seq<string>, removed: seq<string> := [], [], [];
    var rels := SortedKeys(blue.Keys + green.Keys);
    PartOfNothing(blue, green, sha);
    assert rels[..0] == [];
    for i := 0 to |rels|
      invariant Part(added, rels[..i], blue, green, sha, Added)
      invariant Part(modified, rels[..i], blue, green, sha, Modified)
      invariant Part(removed, rels[..i], blue, green, sha, Removed)
    {
      var rel := rels[i];
      ghost var change := ChangeOf(blue, green, sha, rel);
      PartExtends(added, rels, i, blue, green, sha, Added);
      PartExtends(modified, rels, i, blue, green, sha, Modified);
      PartExtends(removed, rels, i, blue, green, sha, Removed);
      if rel !in blue && rel in green {
        added := added + [rel];
      } else if rel !in green && rel in blue {
        removed := removed + [rel];
      } else if rel in blue && rel in green && sha(blue[rel]) != sha(green[rel]) {
        modified := modified + [rel];
      }
    }
    assert rels[..|rels|] == rels;
    PartOfAllIsList(added, rels, blue, green, sha, Added);
    PartOfAllIsList(modified, rels, blue, green, sha, Modified);
    PartOfAllIsList(removed, rels, blue, green, sha, Removed);
    delta := Delta(added, modified, removed);
  }

  /** `paths` are those of the sorted `seen` that changed one way. */
  ghost predicate Part(paths: seq<string>, seen: seq<string>, blue: map<string, Bytes>, green: map<string, Bytes>,
      sha: Hash, change: Change) {
    && StrictlySorted(paths)
    && forall rel :: rel in paths <==> rel in seen && ChangeOf(blue, green, sha, rel) == change
  }

  lemma PartOfNothing(blue: map<string, Bytes>, green: map<string, Bytes>, sha: Hash)
    ensures forall change :: Part([], [], blue, green, sha, change)
  {
  }

  lemma PartOfAllIsList(paths: seq<string>, rels: seq<string>, blue: map<string, Bytes>, green: map<string, Bytes>,
      sha: Hash, change: Change)
    requires forall rel :: rel in rels <==> rel in blue.Keys + green.Keys
    requires Part(paths, rels, blue, green, sha, change)
    ensures Lists(paths, blue, green, sha, change)
  {
  }

  lemma PartExtends(paths: seq<string>, rels: seq<string>, i: nat, blue: map<string, Bytes>,
      green: map<string, Bytes>, sha: Hash, change: Change)
    requires i < |rels| && StrictlySorted(rels) && Part(paths, rels[..i], blue, green, sha, change)
    ensures ChangeOf(blue, green, sha, rels[i]) == change ==>
            Part(paths + [rels[i]], rels[..i + 1], blue, green, sha, change)
    ensures ChangeOf(blue, green, sha, rels[i]) != change ==> Part(paths, rels[..i + 1], blue, green, sha, change)
  {
    hide ChangeOf, Leq;
    assert rels[..i + 1] == rels[..i] + [rels[i]];
    forall k | 0 <= k < |paths| ensures Leq(paths[k], rels[i]) && paths[k] != rels[i] {
      assert paths[k] in rels[..i];
      var j :| 0 <= j < i && rels[j] == paths[k];
    }
  }

  /** The changed files are listed once each, whatever way they changed. */
  lemma ChangedFilesOnce(delta: Delta, blue: map<string, Bytes>, green: map<string, Bytes>, sha: Hash)
    requires IsDelta(delta, blue, green, sha)
    ensures forall rel ::
              rel in delta.ChangedFiles() <==> rel in blue.Keys + green.Keys && ChangeOf(blue, green, sha, rel) != Same
    ensures var all := delta.ChangedFiles(); forall i, j :: 0 <= i < j < |all| ==> all[i] != all[j]
  {
    hide ChangeOf, Leq;
    var all := delta.ChangedFiles();
    var a, m := |delta.added|, |delta.added| + |delta.modified|;
    forall i, j | 0 <= i < j < |all| ensures all[i] != all[j] {
      var how := (k: int) => if k < a then Added else if k < m then Modified else Removed;
      assert ChangeOf(blue, green, sha, all[i]) == how(i) by {
        assert all[i] in if i < a then delta.added else if i < m then delta.modified else delta.removed;
      }
      assert ChangeOf(blue, green, sha, all[j]) == how(j) by {
        assert all[j] in if j < a then delta.added else if j < m then delta.modified else delta.removed;
      }
      assert how(i) == how(j) ==> all[i] != all[j];
    }
  }

  /** What applying a delta to the blue files gives: the removed paths go, the added and the
      modified ones take green's content. */
  function Applied(delta: Delta, blue: map<string, Bytes>, green: map<string, Bytes>): map<string, Bytes>
    requires forall rel :: rel in delta.added + delta.modified ==> rel in green
  {
    map rel | rel in blue.Keys + green.Keys && rel !in delta.removed && (rel in blue || rel in delta.added) ::
      if rel in delta.added + delta.modified then green[rel] else if rel in blue then blue[rel] else []
  }

  /** No file differs in content alone and yet hashes alike. */
  ghost predicate NoCollision(blue: map<string, Bytes>, green: map<string, Bytes>, sha: Hash) {
    forall rel :: rel in blue && rel in green && sha(blue[rel]) == sha(green[rel]) ==> blue[rel] == green[rel]
  }

  /** Applying the delta to blue yields exactly green's files, if and only if no changed file
      keeps its hash. */
  lemma AppliedIsGreenIff(delta: Delta, blue: map<string, Bytes>, green: map<string, Bytes>, sha: Hash)
    requires IsDelta(delta, blue, green, sha)
    ensures forall rel :: rel in delta.added + delta.modified ==> rel in green
    ensures Applied(delta, blue, green) == green <==> NoCollision(blue, green, sha)
  {
    hide StrictlySorted;
    var applied := Applied(delta, blue, green);
    assert applied.Keys == green.Keys;
    forall rel | rel in green
      ensures applied[rel] == green[rel]
              <==> (rel in blue && sha(blue[rel]) == sha(green[rel]) ==> blue[rel] == green[rel])
    {
    }
    assert applied == green ==> forall rel :: rel in green ==> applied[rel] == green[rel];
  }

  /** The delta is empty if and only if both trees hold the same paths with the same hashes. */
  lemma EmptyIffAgree(delta: Delta, blue: map<string, Bytes>, green: map<string, Bytes>, sha: Hash)
    requires IsDelta(delta, blue, green, sha)
    ensures delta.ChangedFiles() == []
            <==> blue.Keys == green.Keys
                 && forall rel :: rel in blue && rel in green ==> sha(blue[rel]) == sha(green[rel])
    ensures NoCollision(blue, green, sha) ==> (delta.ChangedFiles() == [] <==> blue == green)
  {
    hide StrictlySorted;
    ChangedFilesOnce(delta, blue, green, sha);
    var all := delta.ChangedFiles();
    if all == [] {
      forall rel ensures rel in blue <==> rel in green {
        if rel in blue.Keys + green.Keys { assert ChangeOf(blue, green, sha, rel) == Same; }
      }
      forall rel | rel in blue && rel in green ensures sha(blue[rel]) == sha(green[rel]) {
        assert ChangeOf(blue, green, sha, rel) == Same;
      }
    } else {
      assert all[0] in all;
    }
  }

  lemma SortedOnce(a: seq<string>, b: seq<string>)
    requires StrictlySorted(a) && StrictlySorted(b) && forall x :: x in a <==> x in b
    ensures a == b
    decreases |a|
  {
    hide Leq;
    assert a != [] ==> a[0] in a;
    assert b != [] ==> b[0] in b;
    if a != [] && b != [] {
      SameHead(a, b);
      forall x ensures x in a[1..] <==> x in b[1..] {
        TailMembers(a, x);
        TailMembers(b, x);
      }
      SortedOnce(a[1..], b[1..]);
      assert a == [a[0]] + a[1..] && b == [b[0]] + b[1..];
    }
  }

  lemma TailMembers(a: seq<string>, x: string)
    requires a != [] && StrictlySorted(a)
    ensures x in a[1..] <==> x in a && x != a[0]
  {
    hide Leq;
    assert a == [a[0]] + a[1..];
    assert forall k :: 0 <= k < |a[1..]| ==> a[1..][k] == a[k + 1];
  }

  lemma SameHead(a: seq<string>, b: seq<string>)
    requires a != [] && b != [] && StrictlySorted(a) && StrictlySorted(b) && forall x :: x in a <==> x in b
    ensures a[0] == b[0]
  {
    hide Leq;
    assert a[0] in b && b[0] in a;
    var i :| 0 <= i < |b| && b[i] == a[0];
    var j :| 0 <= j < |a| && a[j] == b[0];
    if i > 0 && j > 0 { LeqAntisymmetric(a[0], b[0]); }
  }

  /** Exchanging blue and green exchanges the added and the removed paths, and nothing else. */
  lemma ReversedDelta(delta: Delta, back: Delta, blue: map<string, Bytes>, green: map<string, Bytes>, sha: Hash)
    requires IsDelta(delta, blue, green, sha) && IsDelta(back, green, blue, sha)
    ensures back == Delta(delta.removed, delta.modified, delta.added)
  {
    hide StrictlySorted;
    forall rel
      ensures ChangeOf(green, blue, sha, rel)
              == match ChangeOf(blue, green, sha, rel) case Added => Removed case Removed => Added case c => c
    {
    }
    SortedOnce(back.added, delta.removed);
    SortedOnce(back.removed, delta.added);
    SortedOnce(back.modified, delta.modified);
  }
}
