/** Concrete runs of the lease protocol that show what its guarantees rest on. */
module LeaseRuns {
  import opened Strings
  import opened FolderClaims
  import opened LeaseSystem
  import Lock = FileLock

  // ---------------------------------------------------------------- steps of a run

  predicate Forced(op: Op) { op.Create? && op.allowConflicts }

  /** `t` is reached from `s` by unforced calls; if `calm`, through timely holds and without a crashed
      holder. */
  ghost predicate Reaches(calm: bool, s: State, t: State) {
    exists run :: Reaching(run, calm) && run[0] == s && run[|run| - 1] == t
  }

  ghost predicate Reaching(run: seq<State>, calm: bool) {
    IsRun(run) && (calm ==> WellBehaved(run)) && forall n :: 0 <= n < |run| ==> NoForcedCreate(run[n])
  }

  lemma StartReaches(calm: bool, s: State)
    requires Init(s) && (calm ==> Calm(s))
    ensures Reaches(calm, s, s)
  {
    assert Reaching([s], calm) && [s][0] == s;
  }

  lemma Reach(calm: bool, s: State, t: State, p: Pid, act: Act)
    requires Reaches(calm, s, t) && Enabled(t, p, act) && (calm ==> Calm(After(t, p, act)))
    requires act.Invoke? ==> !Forced(act.op)
    ensures Reaches(calm, s, After(t, p, act))
  {
    hide Calm, Init;
    var run :| Reaching(run, calm) && run[0] == s && run[|run| - 1] == t;
    var u := After(t, p, act);
    var longer := run + [u];
    assert NoForcedCreate(u) by {
      assert NoForcedCreate(t);
      StepKeepsUnforced(t, p, act);
    }
    assert Next(t, u);
    assert Reaching(longer, calm) by { hide Next, NoForcedCreate; }
  }

  lemma StepKeepsUnforced(t: State, p: Pid, act: Act)
    requires Enabled(t, p, act) && NoForcedCreate(t) && (act.Invoke? ==> !Forced(act.op))
    ensures NoForcedCreate(After(t, p, act))
  {
  }

  /** One step in the block; when writing, all of the text that is left. */
  lemma BodyStep(calm: bool, s: State, t: State, p: Pid) returns (u: State)
    requires Reaches(calm, s, t) && (calm ==> Calm(t))
    requires p in t.lock.pcs && t.lock.pcs[p].InBody? && p in t.jobs && !Done(t.jobs[p].phase)
    ensures Reaches(calm, s, u) && (calm ==> Calm(u))
    ensures var (phase, disk) := Advance(t.jobs[p], p, t.disk, t.lock.clock, true, Empty);
            u == t.(disk := disk, jobs := t.jobs[p := t.jobs[p].(phase := phase)])
  {
    u := WriteStep(calm, s, t, p, true, Empty);
  }

  lemma WriteStep(calm: bool, s: State, t: State, p: Pid, last: bool, mixed: Content) returns (u: State)
    requires Reaches(calm, s, t) && (calm ==> Calm(t))
    requires p in t.lock.pcs && t.lock.pcs[p].InBody? && p in t.jobs && !Done(t.jobs[p].phase)
    ensures Reaches(calm, s, u) && (calm ==> Calm(u))
    ensures var (phase, disk) := Advance(t.jobs[p], p, t.disk, t.lock.clock, last, mixed);
            u == t.(disk := disk, jobs := t.jobs[p := t.jobs[p].(phase := phase)])
  {
    Reach(calm, s, t, p, Body(last, mixed));
    u := After(t, p, Body(last, mixed));
  }

  /** One step of the lock for a call that has not timed out. */
  lemma LockStep(calm: bool, s: State, t: State, p: Pid) returns (u: State)
    requires Reaches(calm, s, t) && (calm ==> Calm(t)) && Enabled(t, p, LockAct) && !t.lock.pcs[p].TimedOut?
    ensures Reaches(calm, s, u) && (calm ==> Calm(u)) && u == t.(lock := Lock.After(t.lock, p))
  {
    Reach(calm, s, t, p, LockAct);
    u := After(t, p, LockAct);
  }

  /** The lock once `p` has just come into its body. */
  function LockTaken(lock: Lock.State, p: Pid): Lock.State {
    lock.(pcs := lock.pcs[p := Lock.InBody(lock.clock)], file := Some(Lock.LockFile(p, lock.clock)))
  }

  /** `p` opens the free lock and reads the state file. */
  lemma OpensAndReads(calm: bool, s: State, t: State, p: Pid) returns (u: State)
    requires Reaches(calm, s, t) && (calm ==> Calm(t))
    requires p in t.lock.pcs && t.lock.pcs[p].Opening? && t.lock.file.None?
    requires p in t.jobs && t.jobs[p].phase.NotStarted?
    ensures Reaches(calm, s, u) && (calm ==> Calm(u)) && u.disk == t.disk
    ensures u.lock == LockTaken(t.lock, p)
    ensures u.jobs == t.jobs[p := t.jobs[p].(phase := HaveState(t.Table()))]
  {
    hide Reaches, Calm;
    u := LockStep(calm, s, t, p);
    u := LockStep(calm, s, u, p);
    u := BodyStep(calm, s, u, p);
    assert u.lock.pcs == t.lock.pcs[p := Lock.InBody(t.lock.clock)];
  }

  /** `p` calls, takes the free lock and reads the state file. */
  lemma EntersAndReads(calm: bool, s: State, t: State, p: Pid, op: Op) returns (u: State)
    requires Reaches(calm, s, t) && (calm ==> Calm(t))
    requires p in t.lock.pcs && t.lock.pcs[p].Outside? && p !in t.jobs && t.lock.file.None? && !Forced(op)
    ensures Reaches(calm, s, u) && (calm ==> Calm(u)) && u.disk == t.disk
    ensures u.lock == LockTaken(t.lock, p)
    ensures u.jobs == t.jobs[p := Job(op, t.lock.clock, HaveState(t.Table()))]
  {
    Reach(calm, s, t, p, Invoke(op));
    u := After(t, p, Invoke(op));
    hide Reaches, Calm;
    u := LockStep(calm, s, u, p);
    u := OpensAndReads(calm, s, u, p);
    assert u.lock.pcs == t.lock.pcs[p := Lock.InBody(t.lock.clock)];
    assert u.jobs == t.jobs[p := Job(op, t.lock.clock, HaveState(t.Table()))];
  }

  /** `p`, asking for the lock, finds a file older than the stale timeout, and unlinks it. */
  lemma UnlinksStale(s: State, t: State, p: Pid) returns (u: State)
    requires Reaches(false, s, t) && p in t.lock.pcs && t.lock.pcs[p].Outside?
    requires p in t.jobs && t.jobs[p].phase.NotStarted?
    requires t.lock.file.Some? && t.lock.clock - t.lock.file.value.mtime > Lock.STALE
    ensures Reaches(false, s, u) && u.disk == t.disk && u.jobs == t.jobs
    ensures u.lock == t.lock.(pcs := t.lock.pcs[p := Lock.Opening(t.lock.clock + Lock.TIMEOUT)], file := None)
  {
    hide Reaches, Calm;
    u := LockStep(false, s, t, p);
    u := LockStep(false, s, u, p);
    u := LockStep(false, s, u, p);
    u := LockStep(false, s, u, p);
    u := LockStep(false, s, u, p);
    assert u.lock.pcs == t.lock.pcs[p := Lock.Opening(t.lock.clock + Lock.TIMEOUT)];
  }

  /** `p` calls, finds a lock file older than the stale timeout, unlinks it, takes the lock
      and reads the state file. */
  lemma StealsAndReads(s: State, t: State, p: Pid, op: Op) returns (u: State)
    requires Reaches(false, s, t) && p in t.lock.pcs && t.lock.pcs[p].Outside? && p !in t.jobs && !Forced(op)
    requires t.lock.file.Some? && t.lock.clock - t.lock.file.value.mtime > Lock.STALE
    ensures Reaches(false, s, u) && u.disk == t.disk
    ensures u.lock == LockTaken(t.lock, p)
    ensures u.jobs == t.jobs[p := Job(op, t.lock.clock, HaveState(t.Table()))]
  {
    Reach(false, s, t, p, Invoke(op));
    u := After(t, p, Invoke(op));
    hide Reaches, Calm;
    u := UnlinksStale(s, u, p);
    u := OpensAndReads(false, s, u, p);
    assert u.lock.pcs == t.lock.pcs[p := Lock.InBody(t.lock.clock)];
    assert u.jobs == t.jobs[p := Job(op, t.lock.clock, HaveState(t.Table()))];
  }

  /** `p` writes out what it has planned, nobody else using the temporary file. */
  lemma WritesOut(calm: bool, s: State, t: State, p: Pid) returns (u: State)
    requires Reaches(calm, s, t) && (calm ==> Calm(t)) && Sound(t.disk) && t.disk.tmp.None?
    requires p in t.lock.pcs && t.lock.pcs[p].InBody? && p in t.jobs && t.jobs[p].phase.Ready?
    ensures Reaches(calm, s, u) && (calm ==> Calm(u)) && u.lock == t.lock
    ensures Sound(u.disk) && u.disk.tmp.None? && u.Table() == t.jobs[p].phase.plan.table
    ensures u.jobs == t.jobs[p := t.jobs[p].(phase := Finished(t.jobs[p].phase.plan.outcome))]
  {
    hide Reaches, Calm;
    u := BodyStep(calm, s, t, p);
    u := BodyStep(calm, s, u, p);
    u := BodyStep(calm, s, u, p);
    assert u.jobs == t.jobs[p := t.jobs[p].(phase := Finished(t.jobs[p].phase.plan.outcome))];
  }

  function Wants(agent: string): Op {
    Create(agent, ["docs"], 600, "", false, false, agent)
  }

  /** Two processes, nobody at work, no state file. */
  function Start(): State {
    State(Lock.Two(), Disk([], None, None), map[])
  }

  /** `p`, with nothing expired and nobody in its way, prunes and plans to grant. */
  lemma PlansGrant(s: State, t: State, p: Pid, agent: string) returns (u: State)
    requires Reaches(false, s, t) && p in t.lock.pcs && t.lock.pcs[p].InBody?
    requires p in t.jobs && t.jobs[p].op == Wants(agent) && t.jobs[p].phase.HaveState?
    requires var read := t.jobs[p].phase.read;
             Prune(read, t.lock.clock) == read && ConflictRows(["docs"], read, agent) == []
    ensures var c := NewClaim(agent, agent, ["docs"], 600, "", t.lock.clock);
            var plan := Plan(t.jobs[p].phase.read + [c], Granted(c, []), t.lock.clock, t.lock.clock);
            Reaches(false, s, u) && u == t.(jobs := t.jobs[p := t.jobs[p].(phase := Ready(plan))])
  {
    hide Reaches, Calm, Prune, ConflictRows, NewClaim;
    u := BodyStep(false, s, t, p);
    u := BodyStep(false, s, u, p);
    assert u.jobs == t.jobs[p := u.jobs[p]];
  }

  /** `p`, having read an empty table, prunes, decides and writes: its create is granted. */
  lemma GrantsOverEmpty(s: State, t: State, p: Pid, agent: string) returns (u: State)
    requires Reaches(false, s, t) && p in t.lock.pcs && t.lock.pcs[p].InBody? && Sound(t.disk) && t.disk.tmp.None?
    requires p in t.jobs && t.jobs[p].op == Wants(agent) && t.jobs[p].phase == HaveState([])
    ensures var c := NewClaim(agent, agent, ["docs"], 600, "", t.lock.clock);
            Reaches(false, s, u) && u.lock == t.lock && u.Table() == [c] && Sound(u.disk) && u.disk.tmp.None?
            && u.jobs == t.jobs[p := t.jobs[p].(phase := Finished(Granted(c, [])))]
  {
    hide Reaches, Calm;
    assert Prune([], t.lock.clock) == [];
    u := PlansGrant(s, t, p, agent);
    u := WritesOut(false, s, u, p);
    assert u.jobs == t.jobs[p := t.jobs[p].(phase := u.jobs[p].phase)];
  }

  /** While amy's call is in the block with the table read, the stale timeout passes, and bob
      takes the lock file away from her and reads the same table. */
  lemma BothInside() returns (t: State)
    ensures Reaches(false, Start(), t) && t.disk == Start().disk
    ensures t.lock.pcs == map[0 := Lock.InBody(0), 1 := Lock.InBody(t.lock.clock)]
    ensures t.jobs.Keys == {0, 1} && t.jobs[0].op == Wants("amy") && t.jobs[1].op == Wants("bob")
    ensures t.jobs[0].phase == t.jobs[1].phase == HaveState([])
  {
    var s := Start();
    StartReaches(false, s);
    hide Wants;
    t := EntersAndReads(false, s, s, 0, Wants("amy"));
    t := TimePasses(s, t, Lock.STALE + 1);
    hide Reaches;
    t := StealsAndReads(s, t, 1, Wants("bob"));
    assert t.lock.pcs == map[0 := Lock.InBody(0), 1 := Lock.InBody(t.lock.clock)];
  }

  /** Without timely holds a granted lease can vanish: one hold outlasting the stale timeout,
      nobody crashed, and a second agent's grant is overwritten by the first's, both agents
      having been told that "docs" is theirs. */
  lemma OverlongHoldLosesGrant() returns (end: State, a: Claim, b: Claim)
    ensures Reaches(false, Start(), end) && Lock.NoHolderCrashed(end.lock)
    ensures 0 in end.jobs && end.jobs[0].phase == Finished(Granted(a, []))
    ensures 1 in end.jobs && end.jobs[1].phase == Finished(Granted(b, []))
    ensures a.agent != b.agent && PathSetsOverlap(a.paths, b.paths)
    ensures Alive(a, end.lock.clock) && Alive(b, end.lock.clock) && end.Table() == [a]
  {
    hide Reaches, Wants, NewClaim, Alive, PathSetsOverlap;
    var t := BothInside();
    t := GrantsOverEmpty(Start(), t, 1, "bob");
    end := GrantsOverEmpty(Start(), t, 0, "amy");
    a, b := RivalGrants(end.lock.clock);
  }

  /** Two agents' grants of "docs" made at the same moment are both alive, and overlap. */
  lemma RivalGrants(clock: Time) returns (a: Claim, b: Claim)
    ensures a == NewClaim("amy", "amy", ["docs"], 600, "", clock)
    ensures b == NewClaim("bob", "bob", ["docs"], 600, "", clock)
    ensures a.agent != b.agent && PathSetsOverlap(a.paths, b.paths) && Alive(a, clock) && Alive(b, clock)
  {
    a := NewClaim("amy", "amy", ["docs"], 600, "", clock);
    b := NewClaim("bob", "bob", ["docs"], 600, "", clock);
    assert "docs" in a.paths && "docs" in b.paths && PathsOverlap("docs", "docs");
    FreshLeaseWindow("amy", "amy", ["docs"], 600, "", clock, clock);
    FreshLeaseWindow("bob", "bob", ["docs"], 600, "", clock, clock);
    assert a.agent[0] != b.agent[0];
  }

  // ---------------------------------------------------------------- mixed texts

  /** The claims of a state file as `json.dump` spells them, `spell` giving one claim's text. */
  function Listed(spell: Claim -> string, table: seq<Claim>): string {
    if table == [] then ""
    else if |table| == 1 then spell(table[0])
    else spell(table[0]) + ",\n    " + Listed(spell, table[1..])
  }

  /** The whole text: what comes before the claims, the claims, and the rest with its time stamp. */
  function StateText(spell: Claim -> string, head: string, table: seq<Claim>, foot: string): string {
    head + Listed(spell, table) + foot
  }

  lemma {:induction false} ListedAppend(spell: Claim -> string, table: seq<Claim>, c: Claim)
    requires table != []
    ensures Listed(spell, table + [c]) == Listed(spell, table) + (",\n    " + spell(c))
  {
    if |table| == 1 {
      assert table + [c] == [table[0], c];
    } else {
      ListedAppend(spell, table[1..], c);
      assert (table + [c])[1..] == table[1..] + [c];
    }
  }

  /** Two texts that differ at the front only in two claims spelled equally long lie alike from there on:
      the start of one written over the other is again the text of a table, which nobody computed. */
  lemma MixedTextParses(spell: Claim -> string, head: string, foot: string, foot': string, c: Claim, d: Claim,
      rest: seq<Claim>, b: Claim, k: nat)
    requires rest != [] && |spell(c)| == |spell(d)|
    requires |head + spell(c)| <= k <= |head + Listed(spell, [c] + rest)|
    ensures MixTo(StateText(spell, head, [c] + rest, foot), StateText(spell, head, [d] + rest + [b], foot'), k,
                  StateText(spell, head, [c] + rest + [b], foot'))
  {
    hide Listed, StateText;
    var shared, more := ",\n    " + Listed(spell, rest), ",\n    " + spell(b);
    TextSplits(spell, head, c, rest, foot);
    TextSplits(spell, head, c, rest + [b], foot');
    TextSplits(spell, head, d, rest + [b], foot');
    ListedAppend(spell, rest, b);
    Lengthened(",\n    ", Listed(spell, rest), more, foot', head + spell(c));
    Lengthened(",\n    ", Listed(spell, rest), more, foot', head + spell(d));
    assert [c] + rest + [b] == [c] + (rest + [b]) && [d] + rest + [b] == [d] + (rest + [b]);
    ListedCons(spell, c, rest);
    CutsAlike(head + spell(c), head + spell(d), shared, foot, more + foot', k);
  }

  lemma Lengthened(sep: string, listed: string, more: string, foot: string, front: string)
    ensures front + (sep + (listed + more)) + foot == front + (sep + listed) + (more + foot)
  {
  }

  lemma TextSplits(spell: Claim -> string, head: string, c: Claim, rest: seq<Claim>, foot: string)
    requires rest != []
    ensures StateText(spell, head, [c] + rest, foot) == (head + spell(c)) + (",\n    " + Listed(spell, rest)) + foot
  {
    ListedCons(spell, c, rest);
  }

  lemma ListedCons(spell: Claim -> string, c: Claim, rest: seq<Claim>)
    requires rest != []
    ensures Listed(spell, [c] + rest) == spell(c) + ",\n    " + Listed(spell, rest)
  {
    assert ([c] + rest)[1..] == rest;
  }

  /** Two texts that share a stretch at the same place can be cut together anywhere in it. */
  lemma CutsAlike(front: string, front': string, shared: string, tail: string, tail': string, k: nat)
    requires |front| == |front'| && |front| <= k <= |front| + |shared|
    ensures (front + shared + tail)[..k] + (front' + shared + tail')[k..] == front + shared + tail'
  {
    var n := |front|;
    assert (front + shared + tail)[..k] == front + shared[..k - n];
    assert (front' + shared + tail')[k..] == shared[k - n..] + tail';
    assert shared == shared[..k - n] + shared[k - n..];
  }

  /** Two calls in the block with their plans made: both open the one temporary file, their pieces mix
      to the text of some table, and one of them puts that in place. */
  lemma PiecesMix(s: State, t: State, p: Pid, q: Pid, table: seq<Claim>) returns (u: State)
    requires Reaches(false, s, t) && Sound(t.disk) && t.disk.tmp.None? && p != q
    requires p in t.lock.pcs && t.lock.pcs[p].InBody? && p in t.jobs && t.jobs[p].phase.Ready?
    requires q in t.lock.pcs && t.lock.pcs[q].InBody? && q in t.jobs && t.jobs[q].phase.Ready?
    ensures Reaches(false, s, u) && u.lock == t.lock && u.Table() == table
    ensures u.jobs.Keys == t.jobs.Keys && u.jobs[q].phase == Finished(t.jobs[q].phase.plan.outcome)
  {
    hide Reaches, Calm;
    u := BodyStep(false, s, t, p);
    u := BodyStep(false, s, u, q);
    var fd := |t.disk.inodes|;
    assert u.disk.tmp == Some(fd) && u.disk.inodes[fd] == Empty;
    u := WriteStep(false, s, u, q, false, Empty);
    assert u.disk.inodes[fd] == Part(q);
    u := WriteStep(false, s, u, p, false, Garbage);
    assert u.disk.inodes[fd] == Garbage;
    u := WriteStep(false, s, u, q, true, Holds(table));
    assert u.disk.inodes[fd] == Holds(table);
    u := BodyStep(false, s, u, q);
  }

  function Lease(agent: string, path: string, note: string): Claim {
    Claim(agent, agent, [path], note, 0, Some(600 * SECOND))
  }

  function Amy(): Claim { Lease("amy", "docs", "") }
  function Dan(): Claim { Lease("dan", "libs", "") }
  function Eve(note: string): Claim { Lease("eve", "data", note) }

  /** Three agents' claims, the last with a note of any length, and three processes, nobody at work. */
  function Crowd(note: string): seq<Claim> {
    [Amy(), Dan(), Eve(note)]
  }

  function CrowdState(note: string): State { State(Lock.Three(), Disk([Holds(Crowd(note))], None, Some(0)), map[]) }

  lemma CrowdWithout(note: string)
    ensures WithoutId(Crowd(note), "dan") == [Amy(), Eve(note)]
    ensures WithoutId(Crowd(note), "amy") == [Dan(), Eve(note)]
  {
    assert Amy().id[0] != Dan().id[0] && Dan().id[0] != Eve(note).id[0] && Amy().id[0] != Eve(note).id[0];
    KeepThree(Amy(), Dan(), Eve(note), (c: Claim) => c.id != "dan");
    KeepThree(Amy(), Dan(), Eve(note), (c: Claim) => c.id != "amy");
  }

  lemma KeepThree(a: Claim, b: Claim, c: Claim, keep: Claim -> bool)
    ensures Keep([a, b, c], keep)
            == (if keep(a) then [a] else []) + (if keep(b) then [b] else []) + (if keep(c) then [c] else [])
  {
    KeepStep([], a, keep);
    KeepStep([a], b, keep);
    KeepStep([a, b], c, keep);
    assert [] + [a] == [a] && [a] + [b] == [a, b] && [a, b] + [c] == [a, b, c];
  }

  lemma KeepStep(claims: seq<Claim>, c: Claim, keep: Claim -> bool)
    ensures Keep(claims + [c], keep) == Keep(claims, keep) + if keep(c) then [c] else []
  {
    assert (claims + [c])[..|claims|] == claims;
  }

  /** Process `p`, in the block with the table read, plans its release. */
  lemma PlansRelease(s: State, t: State, p: Pid) returns (u: State)
    requires Reaches(false, s, t) && p in t.lock.pcs && t.lock.pcs[p].InBody? && p in t.jobs
    requires t.jobs[p].phase.HaveState? && t.jobs[p].op.Release? && t.jobs[p].op.claimId != ""
    ensures Reaches(false, s, u) && u.lock == t.lock && u.disk == t.disk
    ensures u.jobs.Keys == t.jobs.Keys && forall q :: q in t.jobs && q != p ==> u.jobs[q] == t.jobs[q]
    ensures u.jobs[p].op == t.jobs[p].op && u.jobs[p].phase.Ready?
    ensures u.jobs[p].phase.plan.table == WithoutId(t.jobs[p].phase.read, t.jobs[p].op.claimId)
  {
    hide Reaches, Calm, WithoutId, WithoutAgent;
    u := BodyStep(false, s, t, p);
  }

  lemma CrowdStarts(note: string)
    ensures var s := CrowdState(note);
            && Reaches(false, s, s) && s.Table() == Crowd(note) && s.jobs == map[]
            && s.lock == Lock.State(0, None, map[0 := Lock.Outside, 1 := Lock.Outside, 2 := Lock.Outside])
  {
    StartReaches(false, CrowdState(note));
  }

  /** One call plans to release dan's claim and outstays the stale timeout. */
  lemma DanPlans(note: string) returns (t: State)
    ensures Reaches(false, CrowdState(note), t) && t.disk == CrowdState(note).disk && t.lock.clock == Lock.STALE + 1
    ensures t.lock.file == Some(Lock.LockFile(0, 0))
    ensures t.lock.pcs == map[0 := Lock.InBody(0), 1 := Lock.Outside, 2 := Lock.Outside]
    ensures t.jobs.Keys == {0} && t.jobs[0].phase.Ready?
    ensures t.jobs[0].phase.plan.table == [Amy(), Eve(note)]
  {
    var s := CrowdState(note);
    CrowdWithout(note);
    CrowdStarts(note);
    hide Reaches, Calm, Amy, Dan, Eve, Crowd, CrowdState, WithoutId;
    t := EntersAndReads(false, s, s, 0, Release("dan", ""));
    assert t.lock.pcs == map[0 := Lock.InBody(0), 1 := Lock.Outside, 2 := Lock.Outside];
    t := PlansRelease(s, t, 0);
    t := TimePasses(s, t, Lock.STALE + 1);
  }

  lemma TimePasses(s: State, t: State, until: Time) returns (u: State)
    requires Reaches(false, s, t) && until >= t.lock.clock && t.lock.pcs != map[]
    ensures Reaches(false, s, u) && u == t.(lock := t.lock.(clock := until))
  {
    hide Reaches;
    var p :| p in t.lock.pcs;
    Reach(false, s, t, p, Wait(until));
    u := After(t, p, Wait(until));
  }

  /** Meanwhile another call takes the lock away, releases amy's claim, and leaves. */
  lemma AmyLeaves(note: string, t: State) returns (u: State)
    requires var s := CrowdState(note); Reaches(false, s, t) && t.disk == s.disk
    requires t.lock.clock == Lock.STALE + 1 && t.lock.file == Some(Lock.LockFile(0, 0))
    requires t.lock.pcs == map[0 := Lock.InBody(0), 1 := Lock.Outside, 2 := Lock.Outside]
    requires t.jobs.Keys == {0} && t.jobs[0].phase.Ready?
    ensures Reaches(false, CrowdState(note), u) && Sound(u.disk) && u.disk.tmp.None?
    ensures u.Table() == [Dan(), Eve(note)]
    ensures u.lock == t.lock.(file := None) && u.jobs.Keys == {0, 1} && u.jobs[0] == t.jobs[0]
  {
    var s := CrowdState(note);
    CrowdWithout(note);
    hide Reaches, Calm, Amy, Dan, Eve, Crowd, WithoutId;
    u := StealsAndReads(s, t, 1, Release("amy", ""));
    u := PlansRelease(s, u, 1);
    u := WritesOut(false, s, u, 1);
    u := Leaves(s, u, 1);
    assert u.lock.pcs == t.lock.pcs;
  }

  /** `p`, done, takes the lock file away. */
  lemma Leaves(s: State, t: State, p: Pid) returns (u: State)
    requires Reaches(false, s, t) && p in t.lock.pcs && t.lock.pcs[p].InBody? && p in t.jobs && Done(t.jobs[p].phase)
    ensures Reaches(false, s, u) && u.disk == t.disk && u.jobs == t.jobs
    ensures u.lock == t.lock.(pcs := t.lock.pcs[p := Lock.Outside], file := None)
  {
    hide Reaches, Calm;
    u := LockStep(false, s, t, p);
    u := LockStep(false, s, u, p);
    assert u.lock.pcs == t.lock.pcs[p := Lock.Outside];
  }

  /** Nothing of what is left stands in bob's way. */
  lemma BobUnopposed(note: string, clock: Time)
    requires clock < 600 * SECOND
    ensures var left := [Dan(), Eve(note)];
            Prune(left, clock) == left && ConflictRows(["docs"], left, "bob") == []
  {
    var left := [Dan(), Eve(note)];
    KeepAll(left, (c: Claim) => Alive(c, clock));
    ConflictsExact(["docs"], left, "bob");
    assert !PathsOverlap("docs", "libs") && !PathsOverlap("docs", "data") by {
      assert "docs"[0] != "libs"[0] && "docs"[1] != "data"[1];
    }
  }

  /** A third call plans to grant bob what amy had. */
  lemma BobPlans(note: string, t: State) returns (u: State)
    requires Reaches(false, CrowdState(note), t) && Sound(t.disk) && t.disk.tmp.None?
    requires t.Table() == [Dan(), Eve(note)]
    requires t.lock.clock == Lock.STALE + 1 && t.lock.file == None
    requires t.lock.pcs == map[0 := Lock.InBody(0), 1 := Lock.Outside, 2 := Lock.Outside]
    requires t.jobs.Keys == {0, 1}
    ensures Reaches(false, CrowdState(note), u) && u.disk == t.disk && u.lock.clock == t.lock.clock
    ensures u.lock.pcs == map[0 := Lock.InBody(0), 1 := Lock.Outside, 2 := Lock.InBody(t.lock.clock)]
    ensures u.jobs.Keys == {0, 1, 2} && u.jobs[0] == t.jobs[0] && u.jobs[2].phase.Ready?
    ensures var b := NewClaim("bob", "bob", ["docs"], 600, "", t.lock.clock); var plan := u.jobs[2].phase.plan;
            plan.table == t.Table() + [b] && plan.outcome == Granted(b, [])
  {
    var s := CrowdState(note);
    BobUnopposed(note, t.lock.clock);
    hide Reaches, Calm, Amy, Dan, Eve, CrowdState, Prune, ConflictRows, NewClaim, Wants;
    u := EntersAndReads(false, s, t, 2, Wants("bob"));
    assert u.lock.pcs == map[0 := Lock.InBody(0), 1 := Lock.Outside, 2 := Lock.InBody(t.lock.clock)];
    u := PlansGrant(s, u, 2, "bob");
  }

  /** Once two calls write at the same time, exclusion in the table itself can break, with unforced calls
      and nobody crashed. One release outstays the stale timeout, amy's claim is released, bob is granted
      her folder, and the overlong release writes the start of its text over that of bob's: what bob's
      call then renames into place reads as a table that holds both amy's claim and bob's. `note` may be
      as long as it takes for the texts to need several pieces. */
  lemma MixedTextBreaksExclusion(note: string, spell: Claim -> string, head: string, foot: string, foot': string,
      k: nat) returns (end: State, b: Claim)
    requires |spell(Amy())| == |spell(Dan())|
    requires |head + spell(Amy())| <= k <= |head + Listed(spell, [Amy(), Eve(note)])|
    ensures Reaches(false, CrowdState(note), end) && Lock.NoHolderCrashed(end.lock)
    ensures 2 in end.jobs && end.jobs[2].phase == Finished(Granted(b, []))
    ensures end.Table() == [Amy(), Eve(note), b] && !Exclusive(end.Table()) && Alive(Amy(), end.lock.clock)
    ensures MixTo(StateText(spell, head, [Amy(), Eve(note)], foot),
                  StateText(spell, head, [Dan(), Eve(note), b], foot'), k,
                  StateText(spell, head, end.Table(), foot'))
  {
    end, b := MixedRun(note);
    hide Reaches, Amy, Dan, Eve, Exclusive, Alive, StateText, MixTo;
    var c, d, e := Amy(), Dan(), Eve(note);
    MixedTextParses(spell, head, foot, foot', c, d, [e], b, k);
    assert [c] + [e] == [c, e] && [d] + [e] + [b] == [d, e, b] && [c] + [e] + [b] == [c, e, b];
  }

  lemma MixedRun(note: string) returns (end: State, b: Claim)
    ensures Reaches(false, CrowdState(note), end) && Lock.NoHolderCrashed(end.lock)
    ensures 2 in end.jobs && end.jobs[2].phase == Finished(Granted(b, []))
    ensures end.Table() == [Amy(), Eve(note), b] && !Exclusive(end.Table()) && Alive(Amy(), end.lock.clock)
  {
    hide Reaches, Amy, Dan, Eve, NewClaim, Exclusive, Alive, CrowdState;
    var t := DanPlans(note);
    t := AmyLeaves(note, t);
    t := BobPlans(note, t);
    AmyAlive(t.lock.clock);
    b := NewClaim("bob", "bob", ["docs"], 600, "", t.lock.clock);
    BobsClaim(t.lock.clock);
    AmyAndBob(note, b);
    end := PiecesMix(CrowdState(note), t, 0, 2, [Amy(), Eve(note), b]);
  }

  lemma BobsClaim(clock: Time)
    ensures var b := NewClaim("bob", "bob", ["docs"], 600, "", clock); b.agent == "bob" && b.paths == ["docs"]
  {
  }

  lemma AmyAlive(clock: Time)
    requires clock < 600 * SECOND
    ensures Alive(Amy(), clock)
  {
  }

  /** The start of one text written over another makes a third. */
  predicate MixTo(over: string, under: string, k: nat, mixed: string) {
    k <= |over| && k <= |under| && over[..k] + under[k..] == mixed
  }

  lemma AmyAndBob(note: string, b: Claim)
    requires b.agent == "bob" && b.paths == ["docs"]
    ensures !Exclusive([Amy(), Eve(note), b])
  {
    var a := Amy();
    var table := [a, Eve(note), b];
    assert a == table[0] && b == table[2];
    assert a.agent[0] != b.agent[0];
    assert "docs" in a.paths && "docs" in b.paths && PathsOverlap("docs", "docs");
  }

  /** A claim of amy's that expires ten seconds in. */
  function OldClaim(): Claim { Claim("amy", "amy", ["docs"], "", 0, Some(10 * SECOND)) }

  /** Two processes, nobody at work, one claim in the state file. */
  function StartWithClaim(): State {
    State(Lock.Two(), Disk([Holds([OldClaim()])], None, Some(0)), map[])
  }

  /** The waiter asks for the lock and finds it taken, and two seconds pass. */
  lemma FindsTaken(s: State, t: State) returns (u: State)
    requires Reaches(true, s, t) && Calm(t) && t.lock.clock == 0
    requires t.lock.pcs == map[0 := Lock.InBody(0), 1 := Lock.Outside] && t.lock.file == Some(Lock.LockFile(0, 0))
    requires 1 in t.jobs && t.jobs[1].phase.NotStarted?
    ensures Reaches(true, s, u) && Calm(u) && u.disk == t.disk && u.jobs == t.jobs
    ensures u.lock.clock == 2 * SECOND && u.lock.file == t.lock.file
    ensures u.lock.pcs == map[0 := Lock.InBody(0), 1 := Lock.Found(Lock.TIMEOUT)]
  {
    u := LockStep(true, s, t, 1);
    u := LockStep(true, s, u, 1);
    assert u.lock.pcs == map[0 := Lock.InBody(0), 1 := Lock.Found(Lock.TIMEOUT)];
    Reach(true, s, u, 1, Wait(2 * SECOND));
    u := After(u, 1, Wait(2 * SECOND));
  }

  /** The waiter asks for the lock, finds it taken, looks at its age two seconds in, and naps. */
  lemma WaitsInLine(s: State, t: State) returns (u: State)
    requires Reaches(true, s, t) && Calm(t) && t.lock.clock == 0
    requires t.lock.pcs == map[0 := Lock.InBody(0), 1 := Lock.Outside] && t.lock.file == Some(Lock.LockFile(0, 0))
    requires 1 in t.jobs && t.jobs[1].phase.NotStarted?
    ensures Reaches(true, s, u) && Calm(u) && u.disk == t.disk && u.jobs == t.jobs
    ensures u.lock.clock == 2 * SECOND && u.lock.file == t.lock.file
    ensures u.lock.pcs == map[0 := Lock.InBody(0), 1 := Lock.Napping(Lock.TIMEOUT, 2 * SECOND + Lock.NAP)]
  {
    u := FindsTaken(s, t);
    hide Reaches, Calm;
    u := LockStep(true, s, u, 1);
    u := LockStep(true, s, u, 1);
    u := LockStep(true, s, u, 1);
    assert u.lock.pcs == map[0 := Lock.InBody(0), 1 := Lock.Napping(Lock.TIMEOUT, 2 * SECOND + Lock.NAP)];
  }

  /** A holder that asks for conflicts with nothing prunes, finds the claim alive, and is done. */
  lemma FindsNothing(s: State, t: State, p: Pid) returns (u: State)
    requires Reaches(true, s, t) && Calm(t) && t.lock.clock == 2 * SECOND
    requires p in t.lock.pcs && t.lock.pcs[p].InBody? && p in t.jobs
    requires t.jobs[p].op == Find([], "") && t.jobs[p].phase == HaveState([OldClaim()])
    ensures Reaches(true, s, u) && Calm(u) && u.lock == t.lock && u.disk == t.disk
    ensures u.jobs.Keys == t.jobs.Keys && u.jobs[p].phase.Finished?
    ensures forall q :: q in t.jobs && q != p ==> u.jobs[q] == t.jobs[q]
  {
    hide Reaches, Calm, ConflictRows;
    KeepAll([OldClaim()], (c: Claim) => Alive(c, 2 * SECOND));
    u := BodyStep(true, s, t, p);
    assert u.jobs[p].phase == PrunedAt([OldClaim()], 0, 2 * SECOND);
    u := BodyStep(true, s, u, p);
  }

  /** The holder finds nothing expired and leaves. */
  lemma HolderLeaves(s: State, t: State) returns (u: State)
    requires Reaches(true, s, t) && Calm(t) && t.lock.clock == 2 * SECOND && t.lock.file == Some(Lock.LockFile(0, 0))
    requires t.lock.pcs == map[0 := Lock.InBody(0), 1 := Lock.Napping(Lock.TIMEOUT, 2 * SECOND + Lock.NAP)]
    requires t.jobs.Keys == {0, 1} && t.jobs[0].op == Find([], "") && t.jobs[0].phase == HaveState([OldClaim()])
    ensures Reaches(true, s, u) && Calm(u) && u.disk == t.disk && u.lock.clock == 2 * SECOND && u.lock.file.None?
    ensures u.lock.pcs == map[0 := Lock.Outside, 1 := Lock.Napping(Lock.TIMEOUT, 2 * SECOND + Lock.NAP)]
    ensures 1 in u.jobs && u.jobs[1] == t.jobs[1]
  {
    hide Reaches, Calm, OldClaim;
    u := FindsNothing(s, t, 0);
    u := LockStep(true, s, u, 0);
    u := LockStep(true, s, u, 0);
    assert u.lock.pcs == map[0 := Lock.Outside, 1 := Lock.Napping(Lock.TIMEOUT, 2 * SECOND + Lock.NAP)];
  }

  /** The waiter wakes up three seconds in and gets the lock. */
  lemma TurnComes(s: State, t: State) returns (u: State)
    requires Reaches(true, s, t) && Calm(t) && t.lock.clock == 2 * SECOND && t.lock.file.None?
    requires t.lock.pcs == map[0 := Lock.Outside, 1 := Lock.Napping(Lock.TIMEOUT, 2 * SECOND + Lock.NAP)]
    requires 1 in t.jobs && t.jobs[1].phase.NotStarted?
    ensures Reaches(true, s, u) && Calm(u) && u.disk == t.disk && u.lock.clock == 3 * SECOND
    ensures u.lock.pcs == map[0 := Lock.Outside, 1 := Lock.InBody(3 * SECOND)]
    ensures 1 in u.jobs && u.jobs[1] == t.jobs[1].(phase := HaveState(t.Table()))
  {
    Reach(true, s, t, 1, Wait(3 * SECOND));
    u := After(t, 1, Wait(3 * SECOND));
    assert Calm(u);
    hide Reaches, Calm;
    u := LockStep(true, s, u, 1);
    u := OpensAndReads(true, s, u, 1);
    assert u.lock.pcs == map[0 := Lock.Outside, 1 := Lock.InBody(3 * SECOND)];
  }

  /** The heartbeat, pruning with its old clock reading, finds the claim and renews it. */
  lemma Renews(s: State, t: State) returns (u: State)
    requires Reaches(true, s, t) && Calm(t) && Sound(t.disk) && t.disk.tmp.None? && t.lock.clock == 3 * SECOND
    requires 1 in t.lock.pcs && t.lock.pcs[1].InBody?
    requires 1 in t.jobs && t.jobs[1] == Job(Heartbeat("amy", 1), 0, HaveState([OldClaim()]))
    ensures Reaches(true, s, u) && u.lock == t.lock && u.Table() == Renew([OldClaim()], "amy", 1, 0)
    ensures 1 in u.jobs && u.jobs[1] == t.jobs[1].(phase := Finished(Renewed))
  {
    hide Reaches, Calm, Renew;
    KeepAll([OldClaim()], (c: Claim) => Alive(c, 0));
    assert [OldClaim()][0].id == "amy";
    u := BodyStep(true, s, t, 1);
    assert u.jobs[1].phase == PrunedAt([OldClaim()], 0, 0);
    u := BodyStep(true, s, u, 1);
    assert u.jobs[1].phase.Ready?;
    u := WritesOut(true, s, u, 1);
  }

  /** A heartbeat for a living claim, with every hold short and nobody crashed, can report success
      and leave the lease dead: it waits three seconds in line and renews for one second from
      before the wait, cutting the ten seconds the claim still had. */
  lemma HeartbeatCanLeaveDeadLease() returns (end: State)
    ensures Reaches(true, StartWithClaim(), end)
    ensures 1 in end.jobs && end.jobs[1].op == Heartbeat("amy", 1) && end.jobs[1].phase == Finished(Renewed)
    ensures Alive(OldClaim(), end.lock.clock) && |end.Table()| == 1 && SameLease(end.Table()[0], OldClaim())
    ensures !Alive(end.Table()[0], end.lock.clock)
  {
    var s := StartWithClaim();
    StartReaches(true, s);
    Reach(true, s, s, 1, Invoke(Heartbeat("amy", 1)));
    var t := After(s, 1, Invoke(Heartbeat("amy", 1)));
    assert Calm(t);
    OldClaimRenewed();
    hide Reaches, Calm, Renew, Alive, OldClaim, SameLease;
    t := EntersAndReads(true, s, t, 0, Find([], ""));
    assert t.lock.pcs == map[0 := Lock.InBody(0), 1 := Lock.Outside];
    t := WaitsInLine(s, t);
    t := HolderLeaves(s, t);
    t := TurnComes(s, t);
    end := Renews(s, t);
  }

  lemma OldClaimRenewed()
    ensures var r := Renew([OldClaim()], "amy", 1, 0);
            |r| == 1 && SameLease(r[0], OldClaim()) && !Alive(r[0], 3 * SECOND) && Alive(OldClaim(), 3 * SECOND)
  {
    RenewAt([OldClaim()], "amy", 1, 0, 0);
  }
}
