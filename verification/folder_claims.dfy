/** The shared claim table of `scripts/active_folders.py`: path overlap, pruning,
    conflict collection, and the four operations that read and rewrite the table. */
module FolderClaims {
  import opened Strings

  // ---------------------------------------------------------------- paths

  predicate PathsOverlap(a: string, b: string) {
    if a == b then true
    else if a == "." || b == "." then true
    else b + "/" <= a || a + "/" <= b
  }

  predicate GoodComponents(cs: seq<string>) {
    forall i :: 0 <= i < |cs| ==> cs[i] != "" && cs[i] != "." && '/' !in cs[i]
  }

  /** A path as `_normalize_path` returns it: "." for the root, otherwise non-empty
      components, none of them ".", joined by slashes. */
  predicate Normalized(p: string) {
    p == "." || GoodComponents(Split(p, '/'))
  }

  function Components(p: string): seq<string> {
    if p == "." then [] else Split(p, '/')
  }

  /** `path` is `root` itself or lies below it in the directory tree. */
  predicate Within(path: string, root: string) {
    Components(root) <= Components(path)
  }

  /** The string test is the tree test: two normalized paths overlap exactly when one
      component list is a prefix of the other, exactly when some path lies in both subtrees. */
  lemma OverlapIsSharedSubtree(a: string, b: string)
    requires Normalized(a) && Normalized(b)
    ensures PathsOverlap(a, b) <==> Within(a, b) || Within(b, a)
    ensures PathsOverlap(a, b) <==> exists p :: Normalized(p) && Within(p, a) && Within(p, b)
  {
    PrefixIsPartPrefix(a, b, '/');
    PrefixIsPartPrefix(b, a, '/');
    if Within(a, b) {
      assert Normalized(a) && Within(a, a) && Within(a, b);
    } else if Within(b, a) {
      assert Normalized(b) && Within(b, a) && Within(b, b);
    }
  }

  // ---------------------------------------------------------------- claims

  /** Microseconds since the epoch. */
  type Time = int
  const SECOND: int := 1_000_000

  /** `isoformat(timespec="seconds")` drops the fraction of a second. */
  function ToIso(t: Time): Time { t / SECOND * SECOND }

  function Lifetime(ttl: int): int { (if ttl < 1 then 1 else ttl) * SECOND }

  /** `expires` is `None` when the stored text is not a date. */
  datatype Claim = Claim(id: string, agent: string, paths: seq<string>, note: string,
                         heartbeatAt: Time, expires: Option<Time>)

  predicate Alive(c: Claim, now: Time) { c.expires.Some? && c.expires.value > now }

  /** Everything about a claim but its heartbeat and expiry. */
  predicate SameLease(c: Claim, d: Claim) {
    c.id == d.id && c.agent == d.agent && c.paths == d.paths && c.note == d.note
  }

  function Keep(claims: seq<Claim>, keep: Claim -> bool): (r: seq<Claim>)
    ensures forall c :: c in r <==> c in claims && keep(c)
    ensures |r| <= |claims|
  {
    if claims == [] then []
    else
      var rest := Keep(claims[..|claims| - 1], keep);
      var c := claims[|claims| - 1];
      assert claims == claims[..|claims| - 1] + [c];
      if keep(c) then rest + [c] else rest
  }

  function Prune(claims: seq<Claim>, now: Time): seq<Claim> {
    Keep(claims, (c: Claim) => Alive(c, now))
  }

  function WithoutAgent(claims: seq<Claim>, agent: string): seq<Claim> {
    Keep(claims, (c: Claim) => c.agent != agent)
  }

  function WithoutId(claims: seq<Claim>, id: string): seq<Claim> {
    Keep(claims, (c: Claim) => c.id != id)
  }

  lemma {:induction false} KeepAll(claims: seq<Claim>, keep: Claim -> bool)
    requires forall c :: c in claims ==> keep(c)
    ensures Keep(claims, keep) == claims
  {
    if claims != [] { KeepAll(claims[..|claims| - 1], keep); }
  }

  lemma {:induction false} KeepIsFiltered(claims: seq<Claim>, keep: Claim -> bool)
    ensures Filtered(Keep(claims, keep), claims, keep)
  {
    hide Filtered;
    if claims == [] {
      FilteredNothing(keep);
    } else {
      var n := |claims| - 1;
      KeepIsFiltered(claims[..n], keep);
      FilteredSnoc(Keep(claims[..n], keep), claims[..n], claims[n], keep);
      assert claims == claims[..n] + [claims[n]];
    }
  }

  function NewClaim(id: string, agent: string, paths: seq<string>, ttl: int, note: string, now: Time): Claim {
    Claim(id, agent, paths, note, ToIso(now), Some(ToIso(now + Lifetime(ttl))))
  }

  /** A fresh lease lasts more than max(1, ttl) - 1 seconds and at most max(1, ttl). */
  lemma FreshLeaseWindow(id: string, agent: string, paths: seq<string>, ttl: int, note: string, now: Time, t: Time)
    ensures var c := NewClaim(id, agent, paths, ttl, note, now);
            var seconds := if ttl < 1 then 1 else ttl;
            && (t <= now + (seconds - 1) * 1_000_000 ==> Alive(c, t))
            && (t >= now + seconds * 1_000_000 ==> !Alive(c, t))
  {
    var end := now + Lifetime(ttl);
    assert end == SECOND * (end / SECOND) + end % SECOND;
  }

  /** `_heartbeat_claim` rewrites the first claim with the wanted id. */
  function Renew(claims: seq<Claim>, id: string, ttl: int, now: Time): (r: seq<Claim>)
    ensures |r| == |claims|
    ensures forall i :: 0 <= i < |r| ==> SameLease(r[i], claims[i])
    ensures forall i :: 0 <= i < |r| ==> r[i] == claims[i] || claims[i].id == id
  {
    if claims == [] then []
    else if claims[0].id == id then
      [claims[0].(heartbeatAt := ToIso(now), expires := Some(ToIso(now + Lifetime(ttl))))] + claims[1..]
    else [claims[0]] + Renew(claims[1..], id, ttl, now)
  }

  predicate HasId(claims: seq<Claim>, id: string) {
    exists i :: 0 <= i < |claims| && claims[i].id == id
  }

  lemma FirstWithId(claims: seq<Claim>, id: string) returns (i: nat)
    requires HasId(claims, id)
    ensures i < |claims| && claims[i].id == id && forall j :: 0 <= j < i ==> claims[j].id != id
  {
    i := 0;
    while claims[i].id != id
      invariant 0 <= i < |claims|
      invariant forall j :: 0 <= j < i ==> claims[j].id != id
      decreases |claims| - i
    {
      i := i + 1;
    }
  }

  /** Only the first claim with the id changes, and only its heartbeat and expiry. */
  lemma {:induction false} RenewAt(claims: seq<Claim>, id: string, ttl: int, now: Time, i: nat)
    requires i < |claims| && claims[i].id == id && forall j :: 0 <= j < i ==> claims[j].id != id
    ensures Renew(claims, id, ttl, now) ==
            claims[i := claims[i].(heartbeatAt := ToIso(now), expires := Some(ToIso(now + Lifetime(ttl))))]
  {
    hide ToIso, Lifetime, SameLease;
    var renewed := claims[i].(heartbeatAt := ToIso(now), expires := Some(ToIso(now + Lifetime(ttl))));
    var tail := claims[1..];
    UpdateTail(claims, i, renewed);
    if i > 0 {
      assert tail[i - 1] == claims[i];
      assert forall j :: 0 <= j < i - 1 ==> tail[j] == claims[j + 1];
      RenewAt(tail, id, ttl, now, i - 1);
    }
  }

  lemma UpdateTail<T>(s: seq<T>, i: nat, x: T)
    requires i < |s|
    ensures s[i := x] == if i == 0 then [x] + s[1..] else [s[0]] + s[1..][i - 1 := x]
  {
  }

  // ---------------------------------------------------------------- conflicts

  datatype Conflict = Conflict(agent: string, id: string, expires: Option<Time>, note: string,
                               overlaps: seq<(string, string)>)

  function AddPair(pairs: seq<(string, string)>, pair: (string, string)): seq<(string, string)> {
    if pair in pairs then pairs else pairs + [pair]
  }

  function PairsWith(wanted: string, active: seq<string>, base: seq<(string, string)>): seq<(string, string)> {
    if active == [] then base
    else
      var n := |active| - 1;
      var before := PairsWith(wanted, active[..n], base);
      if PathsOverlap(wanted, active[n]) then AddPair(before, (wanted, active[n])) else before
  }

  /** The overlap map of one claim: overlapping pairs in the order first met. */
  function Pairs(wanted: seq<string>, active: seq<string>): seq<(string, string)> {
    if wanted == [] then [] else PairsWith(wanted[|wanted| - 1], active, Pairs(wanted[..|wanted| - 1], active))
  }

  ghost predicate NoRepeats<T>(s: seq<T>) {
    forall i, j :: 0 <= i < j < |s| ==> s[i] != s[j]
  }

  lemma {:induction false} PairsWithExact(wanted: string, active: seq<string>, base: seq<(string, string)>)
    requires NoRepeats(base)
    ensures NoRepeats(PairsWith(wanted, active, base))
    ensures forall p :: p in PairsWith(wanted, active, base) <==>
                        p in base || (p.0 == wanted && p.1 in active && PathsOverlap(p.0, p.1))
  {
    if active != [] {
      var n := |active| - 1;
      PairsWithExact(wanted, active[..n], base);
      assert active == active[..n] + [active[n]];
    }
  }

  /** The overlap map holds every overlapping pair, nothing else, each once. */
  lemma {:induction false} PairsExact(wanted: seq<string>, active: seq<string>)
    ensures NoRepeats(Pairs(wanted, active))
    ensures forall p :: p in Pairs(wanted, active) <==> p.0 in wanted && p.1 in active && PathsOverlap(p.0, p.1)
  {
    if wanted != [] {
      var n := |wanted| - 1;
      PairsExact(wanted[..n], active);
      PairsWithExact(wanted[n], active, Pairs(wanted[..n], active));
      assert wanted == wanted[..n] + [wanted[n]];
    }
  }

  predicate Ignored(c: Claim, ignore: string) { ignore != "" && c.agent == ignore }

  function ConflictRows(paths: seq<string>, claims: seq<Claim>, ignore: string): seq<Conflict> {
    if claims == [] then []
    else
      var n := |claims| - 1;
      var before := ConflictRows(paths, claims[..n], ignore);
      var c := claims[n];
      if Ignored(c, ignore) || Pairs(paths, c.paths) == [] then before
      else before + [Conflict(c.agent, c.id, c.expires, c.note, Pairs(paths, c.paths))]
  }

  predicate PathSetsOverlap(a: seq<string>, b: seq<string>) {
    exists p, q :: p in a && q in b && PathsOverlap(p, q)
  }

  lemma PairsEmptyIff(wanted: seq<string>, active: seq<string>)
    ensures Pairs(wanted, active) == [] <==> !PathSetsOverlap(wanted, active)
  {
    PairsExact(wanted, active);
    if PathSetsOverlap(wanted, active) {
      var p, q :| p in wanted && q in active && PathsOverlap(p, q);
      assert (p, q) in Pairs(wanted, active);
    }
    if Pairs(wanted, active) != [] {
      assert Pairs(wanted, active)[0] in Pairs(wanted, active);
    }
  }

  /** One row per claim that is not ignored and overlaps a wanted path; so no row at all
      exactly when no such claim exists. */
  lemma {:induction false} ConflictsExact(paths: seq<string>, claims: seq<Claim>, ignore: string)
    ensures ConflictRows(paths, claims, ignore) == [] <==>
            forall c :: c in claims && !Ignored(c, ignore) ==> !PathSetsOverlap(paths, c.paths)
    ensures forall row :: row in ConflictRows(paths, claims, ignore) <==>
            exists c :: c in claims && !Ignored(c, ignore) && PathSetsOverlap(paths, c.paths)
              && row == Conflict(c.agent, c.id, c.expires, c.note, Pairs(paths, c.paths))
  {
    if claims != [] {
      var n := |claims| - 1;
      ConflictsExact(paths, claims[..n], ignore);
      PairsEmptyIff(paths, claims[n].paths);
      assert claims == claims[..n] + [claims[n]];
      assert forall c :: c in claims <==> c in claims[..n] || c == claims[n];
    }
  }

  // ---------------------------------------------------------------- operations

  datatype Op =
    | Create(agent: string, paths: seq<string>, ttl: int, note: string, replaceAgent: bool, allowConflicts: bool,
             newId: string)
    | Heartbeat(id: string, ttl: int)
    | Release(claimId: string, byAgent: string)
    | Find(wanted: seq<string>, ignore: string)

  datatype Outcome =
    | Granted(claim: Claim, over: seq<Conflict>)
    | Refused(conflicts: seq<Conflict>)
    | Renewed
    | NotFound
    | Released(count: int)
    | BadRequest
    | Checked(found: seq<Conflict>)

  datatype Effect = Effect(table: seq<Claim>, outcome: Outcome)

  /** The claims a create compares itself with: the living ones, less its own on replacement. */
  function Rivals(table: seq<Claim>, op: Op, pruneAt: Time): seq<Claim>
    requires op.Create?
  {
    var kept := Prune(table, pruneAt);
    if op.replaceAgent then WithoutAgent(kept, op.agent) else kept
  }

  /** One operation run alone: `pruneAt` is the clock reading its pruning used, `stampAt`
      the later reading a new claim is stamped with. */
  function Apply(table: seq<Claim>, op: Op, pruneAt: Time, stampAt: Time): Effect {
    match op
    case Create(agent, paths, ttl, note, replaceAgent, allowConflicts, newId) =>
      var rivals := Rivals(table, op, pruneAt);
      var conflicts := ConflictRows(paths, rivals, agent);
      if conflicts != [] && !allowConflicts then Effect(table, Refused(conflicts))
      else
        var claim := NewClaim(newId, agent, paths, ttl, note, stampAt);
        Effect(rivals + [claim], Granted(claim, conflicts))
    case Heartbeat(id, ttl) =>
      var kept := Prune(table, pruneAt);
      if HasId(kept, id) then Effect(Renew(kept, id, ttl, pruneAt), Renewed) else Effect(table, NotFound)
    case Release(id, agent) =>
      if id != "" then
        var left := WithoutId(table, id);
        Effect(left, Released(|table| - |left|))
      else if agent != "" then
        var left := WithoutAgent(table, agent);
        Effect(left, Released(|table| - |left|))
      else Effect(table, BadRequest)
    case Find(wanted, ignore) =>
      var kept := Prune(table, pruneAt);
      Effect(if |kept| < |table| then kept else table, Checked(ConflictRows(wanted, kept, ignore)))
  }

  // ---------------------------------------------------------------- lease properties

  /** Claims of two different agents never overlap. */
  ghost predicate Exclusive(table: seq<Claim>) {
    forall c, d :: c in table && d in table && c.agent != d.agent ==> !PathSetsOverlap(c.paths, d.paths)
  }

  ghost predicate AllNormalized(table: seq<Claim>) {
    forall c, p :: c in table && p in c.paths ==> Normalized(p)
  }

  ghost predicate Covers(c: Claim, file: string) {
    exists p :: p in c.paths && Within(file, p)
  }

  /** Exclusion read on the directory tree: it holds exactly when no path lies under claims
      of two different agents. */
  lemma ExclusiveIffNoSharedFile(table: seq<Claim>)
    requires AllNormalized(table)
    ensures Exclusive(table) <==>
            forall c, d, file :: c in table && d in table && Normalized(file) && Covers(c, file) && Covers(d, file)
              ==> c.agent == d.agent
  {
    forall c, d, file |
      Exclusive(table) && c in table && d in table && Normalized(file) && Covers(c, file) && Covers(d, file)
      ensures c.agent == d.agent
    {
      var p :| p in c.paths && Within(file, p);
      var q :| q in d.paths && Within(file, q);
      OverlapIsSharedSubtree(p, q);
      if c.agent != d.agent {
        assert PathSetsOverlap(c.paths, d.paths);
      }
    }
    if !Exclusive(table) {
      var c, d :| c in table && d in table && c.agent != d.agent && PathSetsOverlap(c.paths, d.paths);
      var p, q :| p in c.paths && q in d.paths && PathsOverlap(p, q);
      OverlapIsSharedSubtree(p, q);
      var file :| Normalized(file) && Within(file, p) && Within(file, q);
      assert Covers(c, file) && Covers(d, file);
    }
  }

  lemma OverlapSymmetric(a: seq<string>, b: seq<string>)
    ensures PathSetsOverlap(a, b) <==> PathSetsOverlap(b, a)
  {
    if PathSetsOverlap(a, b) {
      var p, q :| p in a && q in b && PathsOverlap(p, q);
      assert PathsOverlap(q, p);
    }
    if PathSetsOverlap(b, a) {
      var p, q :| p in b && q in a && PathsOverlap(p, q);
      assert PathsOverlap(q, p);
    }
  }

  /** Adding a claim keeps exclusion exactly when no claim of another agent overlaps it. */
  lemma AppendExclusiveIff(rivals: seq<Claim>, claim: Claim)
    requires Exclusive(rivals)
    ensures Exclusive(rivals + [claim]) <==>
            forall c :: c in rivals && c.agent != claim.agent ==> !PathSetsOverlap(claim.paths, c.paths)
  {
    var table := rivals + [claim];
    assert claim in table;
    assert forall c :: c in table <==> c in rivals || c == claim;
    forall c | c in rivals ensures PathSetsOverlap(claim.paths, c.paths) <==> PathSetsOverlap(c.paths, claim.paths) {
      OverlapSymmetric(claim.paths, c.paths);
    }
  }

  /** Every operation keeps exclusion, a create with allow_conflicts = False included. */
  lemma ApplyKeepsExclusive(table: seq<Claim>, op: Op, pruneAt: Time, stampAt: Time)
    requires Exclusive(table)
    requires op.Create? ==> !op.allowConflicts
    ensures Exclusive(Apply(table, op, pruneAt, stampAt).table)
  {
    match op
    case Create(agent, paths, ttl, note, replaceAgent, allowConflicts, newId) =>
      var rivals := Rivals(table, op, pruneAt);
      ConflictsExact(paths, rivals, agent);
      AppendExclusiveIff(rivals, NewClaim(newId, agent, paths, ttl, note, stampAt));
    case Heartbeat(id, ttl) =>
      var kept := Prune(table, pruneAt);
      RenewKeepsExclusive(kept, id, ttl, pruneAt);
    case Release(_, _) =>
    case Find(_, _) =>
  }

  lemma RenewKeepsExclusive(kept: seq<Claim>, id: string, ttl: int, now: Time)
    requires Exclusive(kept)
    ensures Exclusive(Renew(kept, id, ttl, now))
  {
    var r := Renew(kept, id, ttl, now);
    forall c, d | c in r && d in r && c.agent != d.agent ensures !PathSetsOverlap(c.paths, d.paths) {
      var i :| 0 <= i < |r| && r[i] == c;
      var j :| 0 <= j < |r| && r[j] == d;
      assert kept[i] in kept && kept[j] in kept;
    }
  }

  /** A forced create (allow_conflicts = True) keeps exclusion exactly when the conflicts it
      would have been refused for are none. */
  lemma ForcedCreateExclusiveIff(table: seq<Claim>, op: Op, pruneAt: Time, stampAt: Time)
    requires Exclusive(table) && op.Create? && op.allowConflicts && op.agent != ""
    ensures Exclusive(Apply(table, op, pruneAt, stampAt).table) <==>
            ConflictRows(op.paths, Rivals(table, op, pruneAt), op.agent) == []
  {
    var rivals := Rivals(table, op, pruneAt);
    ConflictsExact(op.paths, rivals, op.agent);
    AppendExclusiveIff(rivals, NewClaim(op.newId, op.agent, op.paths, op.ttl, op.note, stampAt));
  }

  /** No living claim of another agent overlaps what `op` wants. */
  ghost predicate Unopposed(table: seq<Claim>, op: Op, now: Time)
    requires op.Create?
  {
    forall c :: c in table && Alive(c, now) && c.agent != op.agent ==> !PathSetsOverlap(op.paths, c.paths)
  }

  /** A create is granted exactly when it is forced or no living claim of another agent
      overlaps; then its claim stands in the table beside all its rivals. */
  lemma CreateGrantedIff(table: seq<Claim>, op: Op, pruneAt: Time, stampAt: Time)
    requires op.Create? && op.agent != ""
    ensures var e := Apply(table, op, pruneAt, stampAt);
            && (e.outcome.Granted? <==> op.allowConflicts || Unopposed(table, op, pruneAt))
            && (e.outcome.Granted? ==>
                    e.outcome.claim in e.table
                    && SameLease(e.outcome.claim, Claim(op.newId, op.agent, op.paths, op.note, 0, None)))
            && (!e.outcome.Granted? ==> e.outcome.Refused? && e.table == table)
  {
    ConflictsExact(op.paths, Rivals(table, op, pruneAt), op.agent);
  }

  /** `c` is dropped by a release naming it or by its own agent's replacing create. */
  predicate GivesUp(op: Op, c: Claim) {
    match op
    case Create(agent, _, _, _, replaceAgent, _, _) => replaceAgent && agent == c.agent
    case Release(id, agent) => if id != "" then c.id == id else agent != "" && c.agent == agent
    case _ => false
  }

  ghost predicate StillHeld(c: Claim, table: seq<Claim>) {
    exists d :: d in table && SameLease(c, d)
  }

  /** A living claim survives every operation that does not give it up, unchanged unless it
      is the one being renewed. */
  lemma LivingClaimSurvives(table: seq<Claim>, op: Op, pruneAt: Time, stampAt: Time, c: Claim)
    requires c in table && Alive(c, pruneAt) && !GivesUp(op, c)
    ensures StillHeld(c, Apply(table, op, pruneAt, stampAt).table)
    ensures !(op.Heartbeat? && op.id == c.id) ==> c in Apply(table, op, pruneAt, stampAt).table
  {
    var after := Apply(table, op, pruneAt, stampAt).table;
    if op.Heartbeat? && HasId(Prune(table, pruneAt), op.id) {
      var kept := Prune(table, pruneAt);
      assert c in kept;
      var i :| 0 <= i < |kept| && kept[i] == c;
      assert SameLease(c, after[i]) && after[i] in after;
    } else {
      assert c in after;
    }
  }

  /** Only a create adds a claim, and only its own: whatever stands afterwards stood before
      under the same id, agent and paths, or is the granted claim. */
  lemma NothingElseAppears(table: seq<Claim>, op: Op, pruneAt: Time, stampAt: Time, d: Claim)
    requires d in Apply(table, op, pruneAt, stampAt).table
    ensures (exists c :: c in table && SameLease(c, d)) ||
            (var outcome := Apply(table, op, pruneAt, stampAt).outcome; outcome.Granted? && outcome.claim == d)
  {
    var e := Apply(table, op, pruneAt, stampAt);
    if op.Heartbeat? && e.outcome.Renewed? {
      var kept := Prune(table, pruneAt);
      var i :| 0 <= i < |e.table| && e.table[i] == d;
      assert kept[i] in kept && kept[i] in table && SameLease(kept[i], d);
    } else if d in table {
      assert SameLease(d, d);
    }
  }

  /** What a granted create leaves: the claims that were alive when it pruned, less its agent's own on
      replacement, in order, and after them a new claim of that agent for those paths, which lives from
      the stamp on for max(1, ttl) seconds up to the second. */
  ghost predicate CreatedOver(table: seq<Claim>, op: Op, pruneAt: Time, stampAt: Time, after: seq<Claim>)
    requires op.Create?
  {
    && after != []
    && Filtered(after[..|after| - 1], table,
                (c: Claim) => Alive(c, pruneAt) && !(op.replaceAgent && c.agent == op.agent))
    && var claim, seconds := after[|after| - 1], if op.ttl < 1 then 1 else op.ttl;
       && claim.id == op.newId && claim.agent == op.agent && claim.paths == op.paths && claim.note == op.note
       && claim.expires.Some? && 0 <= stampAt + seconds * 1_000_000 - claim.expires.value < 1_000_000
  }

  /** A granted create prunes, drops what it replaces, and adds its claim; any other changes nothing. */
  lemma CreateLeaves(table: seq<Claim>, op: Op, pruneAt: Time, stampAt: Time)
    requires op.Create?
    ensures var e := Apply(table, op, pruneAt, stampAt);
            && (e.outcome.Granted? ==> CreatedOver(table, op, pruneAt, stampAt, e.table)
                                       && e.outcome.claim == e.table[|e.table| - 1])
            && (!e.outcome.Granted? ==> e.outcome.Refused? && e.table == table)
  {
    var e := Apply(table, op, pruneAt, stampAt);
    if e.outcome.Granted? {
      var rivals := Rivals(table, op, pruneAt);
      RivalsAreFiltered(table, op, pruneAt);
      hide Filtered, Rivals, ConflictRows;
      assert e.table[..|e.table| - 1] == rivals;
      var end := stampAt + Lifetime(op.ttl);
      assert end == SECOND * (end / SECOND) + end % SECOND;
    }
  }

  lemma RivalsAreFiltered(table: seq<Claim>, op: Op, pruneAt: Time)
    requires op.Create?
    ensures Filtered(Rivals(table, op, pruneAt), table,
                     (c: Claim) => Alive(c, pruneAt) && !(op.replaceAgent && c.agent == op.agent))
  {
    hide Filtered;
    var alive := (c: Claim) => Alive(c, pruneAt);
    var keep := (c: Claim) => Alive(c, pruneAt) && !(op.replaceAgent && c.agent == op.agent);
    KeepIsFiltered(table, alive);
    if op.replaceAgent {
      var others := (c: Claim) => c.agent != op.agent;
      KeepIsFiltered(Prune(table, pruneAt), others);
      FilteredTwice(Rivals(table, op, pruneAt), Prune(table, pruneAt), table, others, alive, keep);
    } else {
      FilteredAlike(Prune(table, pruneAt), table, alive, keep);
    }
  }

  /** A release drops by id, else by agent, exactly the claims named, keeps all others in order, and says
      how many it dropped; with neither it changes nothing and says so. */
  lemma ReleaseDrops(table: seq<Claim>, id: string, agent: string, pruneAt: Time, stampAt: Time)
    ensures var e := Apply(table, Release(id, agent), pruneAt, stampAt);
            && (id == "" && agent == "" ==> e == Effect(table, BadRequest))
            && (id != "" || agent != "" ==>
                    e.outcome.Released? && e.outcome.count == |table| - |e.table|
                    && Filtered(e.table, table, (c: Claim) => if id != "" then c.id != id else c.agent != agent))
            && (id != "" ==> forall c :: c in e.table ==> c.id != id)
            && (id == "" && agent != "" ==> forall c :: c in e.table ==> c.agent != agent)
  {
    var byId := (c: Claim) => c.id != id;
    var byAgent := (c: Claim) => c.agent != agent;
    KeepIsFiltered(table, byId);
    KeepIsFiltered(table, byAgent);
    hide Filtered;
    var keep := (c: Claim) => if id != "" then c.id != id else c.agent != agent;
    if id != "" {
      FilteredAlike(WithoutId(table, id), table, byId, keep);
    } else {
      FilteredAlike(WithoutAgent(table, agent), table, byAgent, keep);
    }
  }

  /** A heartbeat that succeeds prunes and changes nothing else but the first claim with the id, which
      then lives from the clock reading on for max(1, ttl) seconds up to the second. */
  lemma HeartbeatLeaves(table: seq<Claim>, id: string, ttl: int, sampled: Time)
    requires Apply(table, Heartbeat(id, ttl), sampled, sampled).outcome.Renewed?
    ensures exists kept, k: nat ::
              Filtered(kept, table, (c: Claim) => Alive(c, sampled)) && FirstIs(kept, id, k)
              && RenewedAt(kept, Apply(table, Heartbeat(id, ttl), sampled, sampled).table, k, ttl, sampled)
  {
    var kept := Prune(table, sampled);
    PruneIsFiltered(table, sampled);
    hide Filtered, Prune, Renew;
    var k := FirstWithId(kept, id);
    RenewedAtFirst(kept, id, ttl, sampled, k);
  }

  lemma PruneIsFiltered(table: seq<Claim>, now: Time)
    ensures Filtered(Prune(table, now), table, (c: Claim) => Alive(c, now))
  {
    KeepIsFiltered(table, (c: Claim) => Alive(c, now));
  }

  lemma RenewedAtFirst(kept: seq<Claim>, id: string, ttl: int, sampled: Time, k: nat)
    requires FirstIs(kept, id, k)
    ensures RenewedAt(kept, Renew(kept, id, ttl, sampled), k, ttl, sampled)
  {
    RenewAt(kept, id, ttl, sampled, k);
    hide Renew;
    var end := sampled + Lifetime(ttl);
    assert end == SECOND * (end / SECOND) + end % SECOND;
    assert sampled == SECOND * (sampled / SECOND) + sampled % SECOND;
  }

  /** `after` is `kept` with its claim at `k` stamped anew. */
  ghost predicate RenewedAt(kept: seq<Claim>, after: seq<Claim>, k: nat, ttl: int, sampled: Time) {
    && k < |kept| == |after| && SameLease(after[k], kept[k])
    && (forall i :: 0 <= i < |kept| && i != k ==> after[i] == kept[i])
    && 0 <= sampled - after[k].heartbeatAt < 1_000_000
    && after[k].expires.Some?
    && 0 <= sampled + (if ttl < 1 then 1 else ttl) * 1_000_000 - after[k].expires.value < 1_000_000
  }

  /** A look-up reports one row for each claim that is alive, not the asker's own, and overlaps what is
      asked for; and drops from the table exactly what has expired. */
  lemma FindReports(table: seq<Claim>, wanted: seq<string>, ignore: string, now: Time, stampAt: Time)
    ensures var e := Apply(table, Find(wanted, ignore), now, stampAt);
            && e.outcome.Checked?
            && (forall row :: row in e.outcome.found <==>
                   exists c :: c in table && Alive(c, now) && !(ignore != "" && c.agent == ignore)
                     && (exists p, q :: p in wanted && q in c.paths && PathsOverlap(p, q))
                     && row == Conflict(c.agent, c.id, c.expires, c.note, Pairs(wanted, c.paths)))
            && Filtered(e.table, table, (c: Claim) => Alive(c, now))
  {
    var kept := Prune(table, now);
    PruneIsFiltered(table, now);
    ConflictsExact(wanted, kept, ignore);
    hide Filtered;
    if |kept| == |table| { FilteredWhole(kept, table, (c: Claim) => Alive(c, now)); }
  }

  /** A heartbeat succeeds exactly when a claim with that id outlives the clock reading the
      heartbeat took before it queued for the lock. */
  lemma HeartbeatRenewsIff(table: seq<Claim>, id: string, ttl: int, sampled: Time)
    ensures var e := Apply(table, Heartbeat(id, ttl), sampled, sampled);
            && (e.outcome.Renewed? <==> exists c :: c in table && c.id == id && Alive(c, sampled))
            && (!e.outcome.Renewed? ==> e.outcome.NotFound? && e.table == table)
  {
    var kept := Prune(table, sampled);
    if HasId(kept, id) {
      var i :| 0 <= i < |kept| && kept[i].id == id;
      assert kept[i] in kept;
    }
  }

  /** `table[k]` is the first claim with the id. */
  predicate FirstIs(table: seq<Claim>, id: string, k: nat) {
    k < |table| && table[k].id == id && forall j :: 0 <= j < k ==> table[j].id != id
  }

  /** `c` carries the lease a heartbeat sampled at `sampled` asks for; whether that is alive at
      `clock` depends on how long the heartbeat waited. */
  ghost predicate RenewedFrom(c: Claim, sampled: Time, ttl: int, clock: Time) {
    && c.expires == Some(ToIso(sampled + Lifetime(ttl)))
    && (Alive(c, clock) <==> clock < ToIso(sampled + Lifetime(ttl)))
    && (clock - sampled <= Lifetime(ttl) - SECOND ==> Alive(c, clock))
    && (clock - sampled >= Lifetime(ttl) ==> !Alive(c, clock))
  }

  lemma RenewedClaim(kept: seq<Claim>, id: string, ttl: int, sampled: Time, clock: Time)
    requires HasId(kept, id)
    ensures var r := Renew(kept, id, ttl, sampled);
            exists k: nat :: FirstIs(r, id, k) && RenewedFrom(r[k], sampled, ttl, clock)
  {
    var k := FirstWithId(kept, id);
    RenewAt(kept, id, ttl, sampled, k);
    FreshLeaseWindow("", "", [], ttl, "", sampled, clock);
    hide Renew, ToIso;
    assert FirstIs(Renew(kept, id, ttl, sampled), id, k);
  }

  // ---------------------------------------------------------------- the state file

  /** The state file as the scripts rewrite it, one operation at a time under the lock. */
  class StateFile {
    var claims: seq<Claim>

    constructor ()
      ensures claims == []
    {
      claims := [];
    }

    static method PruneExpired(state: seq<Claim>, now: Time) returns (kept: seq<Claim>, removed: nat)
      ensures kept == Prune(state, now)
      ensures removed == |state| - |kept|
    {
      kept, removed := [], 0;
      for i := 0 to |state|
        invariant kept == Prune(state[..i], now)
        invariant removed == i - |kept|
      {
        assert state[..i + 1][..i] == state[..i];
        if Alive(state[i], now) {
          kept := kept + [state[i]];
        } else {
          removed := removed + 1;
        }
      }
      assert state[..|state|] == state;
    }

    static method CollectConflicts(paths: seq<string>, state: seq<Claim>, ignore: string)
      returns (conflicts: seq<Conflict>)
      ensures conflicts == ConflictRows(paths, state, ignore)
    {
      conflicts := [];
      for i := 0 to |state|
        invariant conflicts == ConflictRows(paths, state[..i], ignore)
      {
        assert state[..i + 1][..i] == state[..i];
        var claim := state[i];
        if !(ignore != "" && claim.agent == ignore) {
          var overlaps: seq<(string, string)> := [];
          for j := 0 to |paths|
            invariant overlaps == Pairs(paths[..j], claim.paths)
          {
            assert paths[..j + 1][..j] == paths[..j];
            ghost var before := overlaps;
            for k := 0 to |claim.paths|
              invariant overlaps == PairsWith(paths[j], claim.paths[..k], before)
            {
              assert claim.paths[..k + 1][..k] == claim.paths[..k];
              if PathsOverlap(paths[j], claim.paths[k]) && (paths[j], claim.paths[k]) !in overlaps {
                overlaps := overlaps + [(paths[j], claim.paths[k])];
              }
            }
            assert claim.paths[..|claim.paths|] == claim.paths;
          }
          assert paths[..|paths|] == paths;
          if overlaps != [] {
            conflicts := conflicts + [Conflict(claim.agent, claim.id, claim.expires, claim.note, overlaps)];
          }
        }
      }
      assert state[..|state|] == state;
    }

    method CreateClaim(agent: string, paths: seq<string>, ttl: int, note: string, replaceAgent: bool,
                       allowConflicts: bool, newId: string, pruneAt: Time, stampAt: Time)
      returns (outcome: Outcome)
      modifies this
      ensures Effect(claims, outcome) ==
              Apply(old(claims), Create(agent, paths, ttl, note, replaceAgent, allowConflicts, newId), pruneAt, stampAt)
    {
      var state, _ := PruneExpired(claims, pruneAt);
      if replaceAgent {
        state := WithoutAgent(state, agent);
      }
      var conflicts := CollectConflicts(paths, state, agent);
      if conflicts != [] && !allowConflicts {
        return Refused(conflicts);
      }
      var claim := NewClaim(newId, agent, paths, ttl, note, stampAt);
      claims := state + [claim];
      outcome := Granted(claim, conflicts);
    }

    method HeartbeatClaim(id: string, ttl: int, sampled: Time) returns (outcome: Outcome)
      modifies this
      ensures Effect(claims, outcome) == Apply(old(claims), Heartbeat(id, ttl), sampled, sampled)
    {
      var state, _ := PruneExpired(claims, sampled);
      var i := 0;
      while i < |state| && state[i].id != id
        invariant 0 <= i <= |state|
        invariant forall j :: 0 <= j < i ==> state[j].id != id
      {
        i := i + 1;
      }
      if i == |state| {
        return NotFound;
      }
      var renewed := state[i].(heartbeatAt := ToIso(sampled), expires := Some(ToIso(sampled + Lifetime(ttl))));
      RenewAt(state, id, ttl, sampled, i);
      claims := state[i := renewed];
      outcome := Renewed;
    }

    method ReleaseClaim(id: string, agent: string) returns (outcome: Outcome)
      modifies this
      ensures forall t :: Effect(claims, outcome) == Apply(old(claims), Release(id, agent), t, t)
    {
      var before := |claims|;
      var left;
      if id != "" {
        left := WithoutId(claims, id);
      } else if agent != "" {
        left := WithoutAgent(claims, agent);
      } else {
        return BadRequest;
      }
      claims := left;
      outcome := Released(before - |left|);
    }

    method FindConflicts(paths: seq<string>, ignore: string, now: Time) returns (outcome: Outcome)
      modifies this
      ensures Effect(claims, outcome) == Apply(old(claims), Find(paths, ignore), now, now)
    {
      var state, removed := PruneExpired(claims, now);
      if removed > 0 {
        claims := state;
      }
      var conflicts := CollectConflicts(paths, state, ignore);
      outcome := Checked(conflicts);
    }
  }
}
