/** `evolve_supervisor/coverage_floor.py`: which scanned modules depend, through any chain of
    imports, on the modules a candidate changes. */
module CoverageFloor {
  import opened Strings

  /** `module_imports`: the scanned modules in dictionary order, with the names each imports. */
  datatype Entry = Entry(name: string, imports: set<string>)

  predicate ImportReaches(imported: string, target: string) {
    imported == target || target + "." <= imported
  }

  predicate DistinctNames(scanned: seq<Entry>) {
    forall i, j :: 0 <= i < j < |scanned| ==> scanned[i].name != scanned[j].name
  }

  function Names(scanned: seq<Entry>): set<string> {
    set i | 0 <= i < |scanned| :: scanned[i].name
  }

  /** Some import in `imports` names `target` or something below it. */
  predicate Hits(imports: set<string>, target: string) {
    exists imported :: imported in imports && ImportReaches(imported, target)
  }

  /** `a` is scanned and imports `b`. */
  ghost predicate DependsOn(scanned: seq<Entry>, a: string, b: string) {
    exists i :: 0 <= i < |scanned| && scanned[i].name == a && Hits(scanned[i].imports, b)
  }

  /** That is, some import of `a` names `b` or something inside it: the components of `b` are where the
      components of the import begin. */
  lemma DependsOnIff(scanned: seq<Entry>, a: string, b: string)
    ensures DependsOn(scanned, a, b)
            <==> exists i, imported :: 0 <= i < |scanned| && scanned[i].name == a && imported in scanned[i].imports
                   && Split(b, '.') <= Split(imported, '.')
  {
    forall imported: string ensures ImportReaches(imported, b) <==> Split(b, '.') <= Split(imported, '.') {
      PrefixIsPartPrefix(imported, b, '.');
      assert b + "." == b + ['.'];
    }
    hide ImportReaches, Split;
    if DependsOn(scanned, a, b) {
      var i :| 0 <= i < |scanned| && scanned[i].name == a && Hits(scanned[i].imports, b);
      var imported :| imported in scanned[i].imports && ImportReaches(imported, b);
      assert Split(b, '.') <= Split(imported, '.');
    }
    if i, imported :| 0 <= i < |scanned| && scanned[i].name == a && imported in scanned[i].imports
                      && Split(b, '.') <= Split(imported, '.') {
      assert ImportReaches(imported, b);
      assert Hits(scanned[i].imports, b);
    }
  }

  /** `chain` leads from its first module to a seed, each module importing the next. */
  ghost predicate IsChain(scanned: seq<Entry>, seeds: set<string>, chain: seq<string>) {
    && chain != [] && chain[|chain| - 1] in seeds
    && forall k :: 0 <= k < |chain| - 1 ==> DependsOn(scanned, chain[k], chain[k + 1])
  }

  ghost predicate ReachesSeed(scanned: seq<Entry>, seeds: set<string>, m: string) {
    exists chain :: IsChain(scanned, seeds, chain) && chain[0] == m
  }

  /** The modules outside the seeds that reach a seed through a chain of imports. */
  ghost function Dependents(scanned: seq<Entry>, seeds: set<string>): set<string> {
    set m | m in Names(scanned) && m !in seeds && ReachesSeed(scanned, seeds, m)
  }

  // ---------------------------------------------------------------- the fixpoint loop

  ghost predicate Sound(scanned: seq<Entry>, seeds: set<string>, targets: set<string>) {
    && seeds <= targets
    && forall t :: t in targets ==> t in seeds || (t in Names(scanned) && ReachesSeed(scanned, seeds, t))
  }

  ghost predicate ClosedUpTo(scanned: seq<Entry>, targets: set<string>, n: nat)
    requires n <= |scanned|
  {
    forall i, t :: 0 <= i < n && t in targets && Hits(scanned[i].imports, t) ==> scanned[i].name in targets
  }

  lemma ExtendChain(scanned: seq<Entry>, seeds: set<string>, targets: set<string>, i: nat, t: string)
    requires Sound(scanned, seeds, targets) && i < |scanned| && t in targets && Hits(scanned[i].imports, t)
    ensures Sound(scanned, seeds, targets + {scanned[i].name})
  {
    var tail: seq<string>;
    if t in seeds {
      tail := [t];
    } else {
      tail :| IsChain(scanned, seeds, tail) && tail[0] == t;
    }
    var chain := [scanned[i].name] + tail;
    assert DependsOn(scanned, scanned[i].name, t);
    forall k | 0 <= k < |chain| - 1 ensures DependsOn(scanned, chain[k], chain[k + 1]) {
      if k > 0 { assert DependsOn(scanned, tail[k - 1], tail[k]); }
    }
    assert IsChain(scanned, seeds, chain) && chain[0] == scanned[i].name;
    assert scanned[i].name in Names(scanned);
  }

  lemma {:induction false} ChainStaysInside(scanned: seq<Entry>, seeds: set<string>, targets: set<string>,
      chain: seq<string>)
    requires IsChain(scanned, seeds, chain) && seeds <= targets && ClosedUpTo(scanned, targets, |scanned|)
    ensures chain[0] in targets
  {
    if |chain| > 1 {
      var tail := chain[1..];
      assert forall k :: 0 <= k < |tail| - 1 ==> DependsOn(scanned, tail[k], tail[k + 1]) by {
        forall k | 0 <= k < |tail| - 1 ensures DependsOn(scanned, tail[k], tail[k + 1]) {
          assert DependsOn(scanned, chain[k + 1], chain[k + 2]);
        }
      }
      ChainStaysInside(scanned, seeds, targets, tail);
      assert DependsOn(scanned, chain[0], chain[1]);
    }
  }

  /** A sound set closed under the scanned imports is the seeds plus exactly their dependents. */
  lemma ClosedIsExact(scanned: seq<Entry>, seeds: set<string>, targets: set<string>)
    requires Sound(scanned, seeds, targets) && ClosedUpTo(scanned, targets, |scanned|)
    ensures targets - seeds == Dependents(scanned, seeds)
  {
    forall m | m in Dependents(scanned, seeds) ensures m in targets {
      var chain :| IsChain(scanned, seeds, chain) && chain[0] == m;
      ChainStaysInside(scanned, seeds, targets, chain);
    }
  }

  /** `_dependent_module_refs`: passes over the scanned modules until one changes nothing.
      It ends because every pass but the last moves a scanned module into the targets. */
  method DependentModules(seeds: set<string>, scanned: seq<Entry>) returns (dependents: set<string>)
    requires DistinctNames(scanned)
    ensures dependents == Dependents(scanned, seeds)
  {
    var targets := seeds;
    if targets == {} {
      ClosedIsExact(scanned, seeds, targets);
      return {};
    }
    var changed := true;
    while changed
      invariant Sound(scanned, seeds, targets)
      invariant !changed ==> ClosedUpTo(scanned, targets, |scanned|)
      decreases |Names(scanned) - targets|, changed
    {
      changed := false;
      ghost var before := targets;
      for i := 0 to |scanned|
        invariant Sound(scanned, seeds, targets) && before <= targets
        invariant !changed ==> targets == before && ClosedUpTo(scanned, targets, i)
        invariant changed ==> Names(scanned) - targets < Names(scanned) - before
      {
        var entry := scanned[i];
        if entry.name in targets {
          continue;
        }
        if exists imported, t :: imported in entry.imports && t in targets && ImportReaches(imported, t) {
          ghost var imported, t :| imported in entry.imports && t in targets && ImportReaches(imported, t);
          ExtendChain(scanned, seeds, targets, i, t);
          LeavesFewer(scanned, before, targets, i);
          targets := targets + {entry.name};
          changed := true;
        }
      }
      SmallerSet(Names(scanned) - targets, Names(scanned) - before);
    }
    ClosedIsExact(scanned, seeds, targets);
    dependents := targets - seeds;
  }

  lemma LeavesFewer(scanned: seq<Entry>, before: set<string>, targets: set<string>, i: nat)
    requires i < |scanned| && scanned[i].name !in targets && before <= targets
    ensures Names(scanned) - (targets + {scanned[i].name}) < Names(scanned) - before
  {
    assert scanned[i].name in Names(scanned) - before;
  }

  lemma SmallerSet(a: set<string>, b: set<string>)
    ensures a < b ==> |a| < |b|
    ensures a == b ==> |a| == |b|
  {
    if a < b {
      assert b == a + (b - a);
      assert b - a != {};
    }
  }

  /** The result does not depend on the order the modules were scanned in. */
  lemma OrderIndependent(scanned: seq<Entry>, other: seq<Entry>, seeds: set<string>)
    requires forall e :: e in scanned <==> e in other
    ensures Dependents(scanned, seeds) == Dependents(other, seeds)
  {
    SameEntriesReachSame(scanned, other, seeds);
    SameEntriesReachSame(other, scanned, seeds);
  }

  lemma SameEntriesReachSame(scanned: seq<Entry>, other: seq<Entry>, seeds: set<string>)
    requires forall e :: e in scanned ==> e in other
    ensures Dependents(scanned, seeds) <= Dependents(other, seeds)
  {
    forall a, b | DependsOn(scanned, a, b) ensures DependsOn(other, a, b) {
      var i :| 0 <= i < |scanned| && scanned[i].name == a && Hits(scanned[i].imports, b);
      assert scanned[i] in other;
    }
    forall m | m in Dependents(scanned, seeds) ensures m in Dependents(other, seeds) {
      var chain :| IsChain(scanned, seeds, chain) && chain[0] == m;
      assert IsChain(other, seeds, chain);
      var i :| 0 <= i < |scanned| && scanned[i].name == m;
      assert scanned[i] in other;
    }
  }

  /** Changing more modules never loses a dependent, except to the changed modules themselves. */
  lemma MoreSeedsMoreDependents(scanned: seq<Entry>, seeds: set<string>, more: set<string>)
    requires seeds <= more
    ensures Dependents(scanned, seeds) <= Dependents(scanned, more) + more
  {
    forall m | m in Dependents(scanned, seeds) && m !in more ensures m in Dependents(scanned, more) {
      var chain :| IsChain(scanned, seeds, chain) && chain[0] == m;
      assert IsChain(scanned, more, chain);
    }
  }

  // ---------------------------------------------------------------- relative imports

  function PackageOf(moduleName: string, isPackage: bool): string {
    if isPackage then moduleName
    else
      var parts := Split(moduleName, '.');
      Join(parts[..|parts| - 1], '.')
  }

  function ResolveImportFrom(moduleName: string, isPackage: bool, level: int, importedFrom: string): string {
    if level <= 0 then importedFrom
    else
      var parts := Split(PackageOf(moduleName, isPackage), '.');
      if level > |parts| then importedFrom
      else
        var base := Join(parts[..|parts| - level + 1], '.');
        if importedFrom != "" then (if base != "" then base + "." + importedFrom else importedFrom) else base
  }

  lemma SplitOfJoined(kept: seq<string>, more: string)
    requires kept != [] && SepFree(kept, '.')
    ensures Split(Join(kept, '.'), '.') == kept
    ensures Split(Join(kept, '.') + "." + more, '.') == kept + Split(more, '.')
  {
    SplitJoin(kept, '.');
    SplitConcat(Join(kept, '.'), more, '.');
  }

  lemma HeadStaysInJoin(kept: seq<string>)
    requires kept != []
    ensures |Join(kept, '.')| >= |kept[0]|
  {
  }

  lemma SplitJoinBack(s: string)
    ensures Join(Split(s, '.'), '.') == s
  {
  }

  /** A relative import of level n names, component by component, the importing package less
      its last n - 1 components, followed by what is imported. An absolute import, one from outside
      any package and one that climbs too far name what is written. */
  lemma ResolveDropsLevels(moduleName: string, isPackage: bool, level: int, importedFrom: string)
    ensures var package, parts := PackageOf(moduleName, isPackage), Split(PackageOf(moduleName, isPackage), '.');
            && (level <= 0 || level > |parts| || package == "" ==>
                    ResolveImportFrom(moduleName, isPackage, level, importedFrom) == importedFrom)
            && (1 <= level <= |parts| && parts[0] != "" ==>
                  Split(ResolveImportFrom(moduleName, isPackage, level, importedFrom), '.') ==
                    parts[..|parts| - level + 1] + (if importedFrom != "" then Split(importedFrom, '.') else []))
  {
    hide PackageOf, Split, Join;
    var package, parts := PackageOf(moduleName, isPackage), Split(PackageOf(moduleName, isPackage), '.');
    if package == "" {
      SplitSepFree(package, '.');
      assert parts[..|parts| - 1 + 1] == parts;
      SplitJoinBack(package);
    }
    if 1 <= level <= |parts| && parts[0] != "" {
      var kept := parts[..|parts| - level + 1];
      SplitOfJoined(kept, importedFrom);
      HeadStaysInJoin(kept);
    }
  }
}
