/** The lease protocol as a whole: any number of processes running the table operations of
    `scripts/active_folders.py` inside the lock of `FileLock`. Reading the state file, each
    clock reading, deciding, and opening, filling and renaming the temporary file are
    separate steps. */
module LeaseSystem {
  import opened Strings
  import opened FolderClaims
  import Lock = FileLock

  type Pid = Lock.Pid

  // ---------------------------------------------------------------- the disk

  /** What a file holds: nothing, the start of what process `writer` is dumping, a whole table as
      `_write_state` dumps it, or other bytes that are no JSON. */
  datatype Content = Empty | Part(writer: Pid) | Holds(table: seq<Claim>) | Garbage

  /** Files by number, as descriptors see them, and the two names: the one temporary file all
      writers share, and the state file. */
  datatype Disk = Disk(inodes: seq<Content>, tmp: Option<nat>, live: Option<nat>) {

    /** `_read_state`: a missing or unreadable state file reads as no claims. */
    function Table(): seq<Claim> {
      if live.Some? && live.value < |inodes| then Reads(inodes[live.value]) else []
    }

    /** `tmp.open("w")`: the file of that name emptied, or a new one. */
    function OpenTmp(): Disk {
      if tmp.Some? then Write(tmp.value, Empty) else Disk(inodes + [Empty], Some(|inodes|), live)
    }

    function Fd(): nat { if tmp.Some? then tmp.value else |inodes| }

    /** A write through a descriptor goes to the file it was opened on, whatever that file is
        called by now. */
    function Write(fd: nat, content: Content): Disk {
      if fd < |inodes| then Disk(inodes[fd := content], tmp, live) else this
    }

    /** The file is as `p` left it: emptied when it opened it, or holding the start of its text. */
    predicate Own(fd: nat, p: Pid, begun: bool) {
      fd < |inodes| && inodes[fd] == if begun then Part(p) else Empty
    }

    /** What is in the file after a piece of `p`'s text that makes it `text` if nobody interferes. If
        another call has emptied the file since, or written to it, the pieces mix to anything. */
    function Written(fd: nat, p: Pid, begun: bool, text: Content, mixed: Content): Content {
      if Own(fd, p, begun) then text else mixed
    }
  }

  function Reads(content: Content): seq<Claim> { if content.Holds? then content.table else [] }

  /** Both names stand for files, and not for the same one. */
  ghost predicate Sound(disk: Disk) {
    && (disk.tmp.Some? ==> disk.tmp.value < |disk.inodes|)
    && (disk.live.Some? ==> disk.live.value < |disk.inodes|)
    && (disk.tmp.Some? && disk.live.Some? ==> disk.tmp.value != disk.live.value)
  }

  // ---------------------------------------------------------------- calls

  /** What a call is about to write, and the clock readings it rests on. */
  datatype Plan = Plan(table: seq<Claim>, outcome: Outcome, pruneAt: Time, stampAt: Time)

  /** How far a call has come inside the `with _file_lock` block. */
  datatype Phase =
    | NotStarted
    | HaveState(read: seq<Claim>)
    | PrunedAt(kept: seq<Claim>, removed: int, at: Time)
    | Ready(plan: Plan)                // about to open the temporary file
    | Opened(plan: Plan, fd: nat, begun: bool)  // writing it, piece by piece
    | Flushed(plan: Plan, fd: nat)     // about to rename it
    | Finished(result: Outcome)
    | Raised                           // the lock timed out, or the temporary file was gone

  predicate Done(phase: Phase) { phase.Finished? || phase.Raised? }

  /** A call in progress; `sampled` is the clock when it was made, before any locking. */
  datatype Job = Job(op: Op, sampled: Time, phase: Phase)

  datatype State = State(lock: Lock.State, disk: Disk, jobs: map<Pid, Job>) {
    function Table(): seq<Claim> { disk.Table() }
  }

  /** A heartbeat prunes with the clock it read before locking, the others with the present one. */
  function PruneClock(job: Job, clock: Time): Time {
    if job.op.Heartbeat? then job.sampled else clock
  }

  function Decide(op: Op, kept: seq<Claim>, removed: int, at: Time, clock: Time): Phase
    requires !op.Release?
  {
    match op
    case Create(agent, paths, ttl, note, replaceAgent, allowConflicts, newId) =>
      var rivals := if replaceAgent then WithoutAgent(kept, agent) else kept;
      var conflicts := ConflictRows(paths, rivals, agent);
      if conflicts != [] && !allowConflicts then Finished(Refused(conflicts))
      else
        var claim := NewClaim(newId, agent, paths, ttl, note, clock);
        Ready(Plan(rivals + [claim], Granted(claim, conflicts), at, clock))
    case Heartbeat(id, ttl) =>
      if HasId(kept, id) then Ready(Plan(Renew(kept, id, ttl, at), Renewed, at, at)) else Finished(NotFound)
    case Find(wanted, ignore) =>
      var conflicts := ConflictRows(wanted, kept, ignore);
      if removed > 0 then Ready(Plan(kept, Checked(conflicts), at, at)) else Finished(Checked(conflicts))
  }

  /** The next phase of a call that has only read so far. */
  function Think(job: Job, table: seq<Claim>, clock: Time): Phase
    requires job.phase.NotStarted? || job.phase.HaveState? || job.phase.PrunedAt?
  {
    match job.phase
    case NotStarted => HaveState(table)
    case HaveState(read) =>
      if job.op.Release? then
        if job.op.claimId == "" && job.op.byAgent == "" then Finished(BadRequest)
        else
          var left := if job.op.claimId != "" then WithoutId(read, job.op.claimId)
                      else WithoutAgent(read, job.op.byAgent);
          Ready(Plan(left, Released(|read| - |left|), clock, clock))
      else
        var at := PruneClock(job, clock);
        PrunedAt(Prune(read, at), |read| - |Prune(read, at)|, at)
    case PrunedAt(kept, removed, at) =>
      if job.op.Release? then Finished(BadRequest) else Decide(job.op, kept, removed, at, clock)
  }

  /** The next step of `p` in the block: phase and disk after it. Its text reaches the file in as many
      pieces as there are, `last` being the last; `mixed` is what comes of writing over others. */
  function Advance(job: Job, p: Pid, disk: Disk, clock: Time, last: bool, mixed: Content): (Phase, Disk)
    requires !Done(job.phase)
  {
    match job.phase
    case Ready(plan) => (Opened(plan, disk.Fd(), false), disk.OpenTmp())
    case Opened(plan, fd, begun) =>
      if last then (Flushed(plan, fd), disk.Write(fd, disk.Written(fd, p, begun, Holds(plan.table), mixed)))
      else (Opened(plan, fd, true), disk.Write(fd, disk.Written(fd, p, begun, Part(p), mixed)))
    case Flushed(plan, _) =>
      if disk.tmp.None? then (Raised, disk) else (Finished(plan.outcome), Disk(disk.inodes, None, disk.tmp))
    case NotStarted => (Think(job, disk.Table(), clock), disk)
    case HaveState(_) => (Think(job, disk.Table(), clock), disk)
    case PrunedAt(_, _, _) => (Think(job, disk.Table(), clock), disk)
  }

  // ---------------------------------------------------------------- steps

  datatype Act = Invoke(op: Op) | LockAct | Body(last: bool, mixed: Content) | Forget | Die | Wait(until: Time)

  predicate Enabled(s: State, p: Pid, act: Act) {
    p in s.lock.pcs &&
    match act
    case Invoke(_) => s.lock.pcs[p].Outside? && p !in s.jobs
    case LockAct =>
      // The lock is asked for once per call, and left when the block is done.
      && Lock.Enabled(s.lock, p)
      && p in s.jobs
      && (s.lock.pcs[p].Outside? ==> s.jobs[p].phase.NotStarted?)
      && (s.lock.pcs[p].InBody? ==> Done(s.jobs[p].phase))
    case Body(_, _) => s.lock.pcs[p].InBody? && p in s.jobs && !Done(s.jobs[p].phase)
    case Forget => s.lock.pcs[p].Outside? && p in s.jobs
    case Die => true
    case Wait(until) => until >= s.lock.clock
  }

  function After(s: State, p: Pid, act: Act): State
    requires Enabled(s, p, act)
  {
    match act
    case Invoke(op) => s.(jobs := s.jobs[p := Job(op, s.lock.clock, NotStarted)])
    case LockAct =>
      var gaveUp := s.lock.pcs[p].TimedOut?;
      s.(lock := Lock.After(s.lock, p), jobs := if gaveUp then s.jobs[p := s.jobs[p].(phase := Raised)] else s.jobs)
    case Body(last, mixed) =>
      var job := s.jobs[p];
      var (phase, disk) := Advance(job, p, s.disk, s.lock.clock, last, mixed);
      s.(disk := disk, jobs := s.jobs[p := job.(phase := phase)])
    case Forget => s.(jobs := s.jobs - {p})
    case Die => s.(lock := Lock.At(s.lock, p, Lock.Crashed(Lock.Holding(s.lock.pcs[p]))))
    case Wait(until) => s.(lock := s.lock.(clock := until))
  }

  ghost predicate Next(s: State, s': State) {
    exists p, act :: Enabled(s, p, act) && s' == After(s, p, act)
  }

  ghost predicate Init(s: State) {
    Lock.Init(s.lock) && Sound(s.disk) && s.jobs == map[]
  }

  ghost predicate IsRun(run: seq<State>) {
    |run| > 0 && Init(run[0]) && forall i :: 0 < i < |run| ==> Next(run[i - 1], run[i])
  }

  /** Every step is a step of the lock or leaves the lock alone. */
  lemma NextMovesLock(s: State, s': State)
    requires Next(s, s')
    ensures Lock.Next(s.lock, s'.lock)
  {
    var p, act :| Enabled(s, p, act) && s' == After(s, p, act);
    if act.LockAct? {
      assert Lock.Step(s.lock, s'.lock, p);
    } else if act.Die? {
      assert Lock.Crash(s.lock, s'.lock, p);
    } else {
      assert Lock.Tick(s.lock, s'.lock);
    }
  }

  // ---------------------------------------------------------------- exclusion

  ghost predicate PhaseExclusive(phase: Phase) {
    match phase
    case HaveState(read) => Exclusive(read)
    case PrunedAt(kept, _, _) => Exclusive(kept)
    case Ready(plan) => Exclusive(plan.table)
    case Opened(plan, _, _) => Exclusive(plan.table)
    case Flushed(plan, _) => Exclusive(plan.table)
    case _ => true
  }

  ghost predicate NoForcedCreate(s: State) {
    forall p :: p in s.jobs && s.jobs[p].op.Create? ==> !s.jobs[p].op.allowConflicts
  }

  /** Every file reads as a table without overlaps between agents, and so does every snapshot. */
  ghost predicate AllExclusive(s: State) {
    && (forall i :: 0 <= i < |s.disk.inodes| ==> Exclusive(Reads(s.disk.inodes[i])))
    && (forall p :: p in s.jobs ==> PhaseExclusive(s.jobs[p].phase))
  }

  lemma DecideKeepsExclusive(op: Op, kept: seq<Claim>, removed: int, at: Time, clock: Time)
    requires !op.Release? && Exclusive(kept) && (op.Create? ==> !op.allowConflicts)
    ensures PhaseExclusive(Decide(op, kept, removed, at, clock))
  {
    match op
    case Create(agent, paths, ttl, note, replaceAgent, _, newId) =>
      var rivals := if replaceAgent then WithoutAgent(kept, agent) else kept;
      ConflictsExact(paths, rivals, agent);
      AppendExclusiveIff(rivals, NewClaim(newId, agent, paths, ttl, note, clock));
    case Heartbeat(id, ttl) => RenewKeepsExclusive(kept, id, ttl, at);
    case Find(_, _) =>
  }

  lemma ThinkKeepsExclusive(job: Job, table: seq<Claim>, clock: Time)
    requires job.phase.NotStarted? || job.phase.HaveState? || job.phase.PrunedAt?
    requires Exclusive(table) && PhaseExclusive(job.phase) && (job.op.Create? ==> !job.op.allowConflicts)
    ensures PhaseExclusive(Think(job, table, clock))
  {
    if job.phase.PrunedAt? && !job.op.Release? {
      DecideKeepsExclusive(job.op, job.phase.kept, job.phase.removed, job.phase.at, clock);
    }
  }

  /** In this step `p` writes into a file that another call has emptied or written since. */
  ghost predicate WritesOver(s: State, s': State, p: Pid) {
    && p in s.jobs && s.jobs[p].phase.Opened? && !s.disk.Own(s.jobs[p].phase.fd, p, s.jobs[p].phase.begun)
    && exists last, mixed :: Enabled(s, p, Body(last, mixed)) && s' == After(s, p, Body(last, mixed))
  }

  ghost predicate NobodyWritesOver(s: State, s': State) {
    forall p :: p in s.jobs ==> !WritesOver(s, s', p)
  }

  /** Whoever writes over another's text leaves nothing that parses, or its own text whole. */
  ghost predicate Unmixed(s: State, s': State) {
    forall p :: p in s.jobs && WritesOver(s, s', p) ==>
                  var phase := s.jobs[p].phase;
                  phase.fd < |s'.disk.inodes| && s'.disk.inodes[phase.fd].Holds? ==>
                    s'.disk.inodes[phase.fd].table == phase.plan.table
  }

  lemma NextKeepsExclusive(s: State, s': State)
    requires Next(s, s') && Unmixed(s, s') && AllExclusive(s) && NoForcedCreate(s)
    ensures AllExclusive(s')
  {
    hide Exclusive, Think;
    var p, act :| Enabled(s, p, act) && s' == After(s, p, act);
    NoClaimsExclusive();
    if act.Body? {
      var job := s.jobs[p];
      if job.phase.NotStarted? || job.phase.HaveState? || job.phase.PrunedAt? {
        ThinkKeepsExclusive(job, s.Table(), s.lock.clock);
      } else if job.phase.Opened? && !s.disk.Own(job.phase.fd, p, job.phase.begun) {
        assert WritesOver(s, s', p);
      }
    }
  }

  lemma NoClaimsExclusive()
    ensures Exclusive([])
  {
  }

  /** The table never holds overlapping claims of two agents, over every interleaving of
      unforced calls, with crashed and overlong holders who share one temporary file and may spoil it
      or write into the state file itself: a reader gets a table some call computed, or none at all.
      The lock is needed for one thing: that no two calls' texts mix into one that still parses. */
  lemma {:induction false} TableAlwaysExclusive(run: seq<State>, i: nat)
    requires IsRun(run) && i < |run|
    requires forall k :: 0 <= k < |run[0].disk.inodes| ==> Exclusive(Reads(run[0].disk.inodes[k]))
    requires forall k :: 0 <= k < |run| ==> NoForcedCreate(run[k])
    requires forall k :: 0 < k < |run| ==> Unmixed(run[k - 1], run[k])
    ensures AllExclusive(run[i]) && Exclusive(run[i].Table())
  {
    hide AllExclusive, Unmixed, NoForcedCreate;
    if i > 0 {
      TableAlwaysExclusive(run, i - 1);
      NextKeepsExclusive(run[i - 1], run[i]);
    } else {
      StartsExclusive(run[0]);
    }
    TableIsExclusive(run[i]);
  }

  lemma StartsExclusive(s: State)
    requires Init(s) && forall k :: 0 <= k < |s.disk.inodes| ==> Exclusive(Reads(s.disk.inodes[k]))
    ensures AllExclusive(s)
  {
  }

  lemma TableIsExclusive(s: State)
    requires AllExclusive(s)
    ensures Exclusive(s.Table())
  {
    NoClaimsExclusive();
  }

  // ---------------------------------------------------------------- serialization

  ghost predicate Calm(s: State) {
    Lock.HoldsTimely(s.lock) && Lock.NoHolderCrashed(s.lock)
  }

  ghost predicate WellBehaved(run: seq<State>) {
    forall i :: 0 <= i < |run| ==> Calm(run[i])
  }

  predicate MidBody(phase: Phase) {
    phase.HaveState? || phase.PrunedAt? || phase.Ready? || phase.Opened? || phase.Flushed?
  }

  /** The plan is what the operation, run alone on the present table, computes from clock
      readings no later than now. */
  ghost predicate Planned(plan: Plan, op: Op, sampled: Time, table: seq<Claim>, clock: Time) {
    && Effect(plan.table, plan.outcome) == Apply(table, op, plan.pruneAt, plan.stampAt)
    && plan.pruneAt <= plan.stampAt <= clock
    && (op.Heartbeat? ==> plan.pruneAt == sampled)
  }

  /** What a call computed and wrote so far agrees with the disk as it is now. */
  ghost predicate InStep(job: Job, p: Pid, disk: Disk, clock: Time) {
    job.sampled <= clock &&
    match job.phase
    case HaveState(read) => read == disk.Table()
    case PrunedAt(kept, removed, at) =>
      !job.op.Release? && kept == Prune(disk.Table(), at) && removed == |disk.Table()| - |kept| && at <= clock
      && (job.op.Heartbeat? ==> at == job.sampled)
    case Ready(plan) => Planned(plan, job.op, job.sampled, disk.Table(), clock)
    case Opened(plan, fd, begun) =>
      && Planned(plan, job.op, job.sampled, disk.Table(), clock)
      && disk.tmp == Some(fd) && disk.Own(fd, p, begun)
    case Flushed(plan, fd) =>
      && Planned(plan, job.op, job.sampled, disk.Table(), clock)
      && disk.tmp == Some(fd) && fd < |disk.inodes| && disk.inodes[fd] == Holds(plan.table)
    case _ => true
  }

  ghost predicate Inv(s: State) {
    && Lock.Inv(s.lock) && Sound(s.disk)
    && (forall p :: p in s.jobs ==> p in s.lock.pcs)
    && (forall p :: p in s.jobs && MidBody(s.jobs[p].phase) ==> s.lock.pcs[p].InBody?)
    && (forall p :: p in s.jobs ==> InStep(s.jobs[p], p, s.disk, s.lock.clock))
  }

  lemma ThinkInStep(job: Job, p: Pid, disk: Disk, clock: Time)
    requires job.phase.NotStarted? || job.phase.HaveState? || job.phase.PrunedAt?
    requires InStep(job, p, disk, clock)
    ensures InStep(job.(phase := Think(job, disk.Table(), clock)), p, disk, clock)
  {
    hide Prune, WithoutId, WithoutAgent, ConflictRows, Renew, HasId, NewClaim;
    assert |Prune(disk.Table(), clock)| <= |disk.Table()| by { PruneShrinks(disk.Table(), clock); }
  }

  lemma PruneShrinks(table: seq<Claim>, clock: Time)
    ensures |Prune(table, clock)| <= |table|
  {
  }

  /** A step in the block keeps the call in step, and changes the table only when it renames
      the temporary file. */
  lemma AdvanceInStep(job: Job, p: Pid, disk: Disk, clock: Time, last: bool, mixed: Content)
    requires Sound(disk) && InStep(job, p, disk, clock) && !Done(job.phase)
    ensures var (phase, after) := Advance(job, p, disk, clock, last, mixed);
            && Sound(after) && InStep(job.(phase := phase), p, after, clock)
            && after.Table() == (if job.phase.Flushed? then job.phase.plan.table else disk.Table())
            && (job.phase.Flushed? ==> phase == Finished(job.phase.plan.outcome))
  {
    hide Planned, Think;
    if job.phase.NotStarted? || job.phase.HaveState? || job.phase.PrunedAt? {
      ThinkInStep(job, p, disk, clock);
    }
  }

  lemma BodyKeepsInv(s: State, p: Pid, last: bool, mixed: Content)
    requires Inv(s) && Enabled(s, p, Body(last, mixed))
    ensures Inv(After(s, p, Body(last, mixed)))
  {
    hide Advance, Sound, Planned;
    var s' := After(s, p, Body(last, mixed));
    AdvanceInStep(s.jobs[p], p, s.disk, s.lock.clock, last, mixed);
    Lock.InvMeansSafe(s.lock);
    assert Lock.Holding(s.lock.pcs[p]);
    // Nobody else is inside the block, so nobody else's snapshot can go out of date.
    forall q | q in s'.jobs && q != p ensures !MidBody(s.jobs[q].phase) {
      assert q in s.lock.pcs;
    }
  }

  lemma LockActKeepsInv(s: State, p: Pid)
    requires Inv(s) && Enabled(s, p, LockAct) && Lock.Inv(Lock.After(s.lock, p))
    ensures Inv(After(s, p, LockAct))
  {
    hide Planned, Lock.Inv, Sound;
    var s' := After(s, p, LockAct);
    assert s'.lock.clock == s.lock.clock && s'.lock.pcs == s.lock.pcs[p := s'.lock.pcs[p]];
    forall q | q in s'.jobs && MidBody(s'.jobs[q].phase) ensures s'.lock.pcs[q].InBody? {
    }
  }

  lemma DieKeepsInv(s: State, p: Pid)
    requires Inv(s) && Enabled(s, p, Die)
    requires Lock.NoHolderCrashed(After(s, p, Die).lock) && Lock.Inv(After(s, p, Die).lock)
    ensures Inv(After(s, p, Die))
  {
    hide Planned, Lock.Inv, Sound;
    assert After(s, p, Die).lock.pcs[p] == Lock.Crashed(Lock.Holding(s.lock.pcs[p]));
  }

  lemma NextKeepsInv(s: State, s': State)
    requires Inv(s) && Next(s, s') && Lock.HoldsTimely(s.lock) && Lock.NoHolderCrashed(s'.lock)
    ensures Inv(s')
  {
    NextMovesLock(s, s');
    Lock.NextKeepsInv(s.lock, s'.lock);
    var p, act :| Enabled(s, p, act) && s' == After(s, p, act);
    match act
    case Body(last, mixed) => BodyKeepsInv(s, p, last, mixed);
    case LockAct => LockActKeepsInv(s, p);
    case Die => DieKeepsInv(s, p);
    case _ => QuietKeepsInv(s, p, act);
  }

  lemma QuietKeepsInv(s: State, p: Pid, act: Act)
    requires Inv(s) && Enabled(s, p, act) && (act.Invoke? || act.Forget? || act.Wait?)
    requires Lock.Inv(After(s, p, act).lock)
    ensures Inv(After(s, p, act))
  {
    hide Lock.Inv, Sound;
  }

  lemma {:induction false} RunKeepsInv(run: seq<State>, i: nat)
    requires IsRun(run) && WellBehaved(run) && i < |run|
    ensures Inv(run[i])
  {
    if i > 0 {
      RunKeepsInv(run, i - 1);
      assert Next(run[i - 1], run[i]) && Calm(run[i - 1]) && Calm(run[i]);
      hide Inv, Next, Init;
      NextKeepsInv(run[i - 1], run[i]);
    } else {
      StartHasInv(run[0]);
    }
  }

  lemma StartHasInv(s: State)
    requires Init(s)
    ensures Inv(s)
  {
  }

  /** In a well-behaved run nobody ever writes over another's text. */
  lemma NeverMixed(run: seq<State>, k: nat)
    requires IsRun(run) && WellBehaved(run) && 0 < k < |run|
    ensures NobodyWritesOver(run[k - 1], run[k]) && Unmixed(run[k - 1], run[k])
  {
    RunKeepsInv(run, k - 1);
    hide IsRun, WellBehaved, Planned, Sound, Lock.Inv;
    var s := run[k - 1];
    assert forall p :: p in s.jobs ==> InStep(s.jobs[p], p, s.disk, s.lock.clock);
  }

  /** The step that renamed the temporary file for a call of `p`: the whole operation at once. */
  ghost predicate RanAlone(s: State, s': State, p: Pid, pruneAt: Time, stampAt: Time) {
    && Commits(s, s', p)
    && pruneAt <= stampAt <= s.lock.clock
    && (s.jobs[p].op.Heartbeat? ==> pruneAt == s.jobs[p].sampled)
    && Effect(s'.Table(), s'.jobs[p].phase.result) == Apply(s.Table(), s.jobs[p].op, pruneAt, stampAt)
  }

  /** `p`'s call puts its table in place. */
  predicate Commits(s: State, s': State, p: Pid) {
    && p in s.jobs && p in s'.jobs && s'.jobs[p].op == s.jobs[p].op
    && s.jobs[p].phase.Flushed? && s'.jobs[p].phase.Finished?
  }

  /** `p`'s call did. */
  ghost predicate AsIfAlone(s: State, s': State, p: Pid) {
    exists pruneAt, stampAt :: RanAlone(s, s', p, pruneAt, stampAt)
  }

  ghost predicate WholeOperation(s: State, s': State) {
    exists p :: AsIfAlone(s, s', p)
  }

  /** Serializability: in a well-behaved run every step leaves the table as it is or carries
      out one call's operation as if it had run alone, so no update is ever lost. */
  lemma TableChangesAreWholeOperations(run: seq<State>, i: nat)
    requires IsRun(run) && WellBehaved(run) && i + 1 < |run|
    ensures run[i + 1].Table() == run[i].Table() || WholeOperation(run[i], run[i + 1])
  {
    hide Advance, Inv, AsIfAlone;
    RunKeepsInv(run, i);
    var s, s' := run[i], run[i + 1];
    var p, act :| Enabled(s, p, act) && s' == After(s, p, act);
    if act.Body? { BodyMeans(s, p, act.last, act.mixed); }
  }

  /** A step in the block leaves the table alone or puts the whole operation in place. */
  lemma BodyMeans(s: State, p: Pid, last: bool, mixed: Content)
    requires Inv(s) && Enabled(s, p, Body(last, mixed))
    ensures var s' := After(s, p, Body(last, mixed));
            if s.jobs[p].phase.Flushed? then AsIfAlone(s, s', p) else s'.Table() == s.Table()
  {
    hide Advance, Planned, Apply, Lock.Inv;
    var job, s' := s.jobs[p], After(s, p, Body(last, mixed));
    AdvanceInStep(job, p, s.disk, s.lock.clock, last, mixed);
    if job.phase.Flushed? {
      var plan := job.phase.plan;
      PlannedMeans(plan, job.op, job.sampled, s.Table(), s.lock.clock);
      assert RanAlone(s, s', p, plan.pruneAt, plan.stampAt);
    }
  }

  /** The step at which a call of `p` comes to its result: nothing was written, or its plan was
      put in place. */
  lemma ResultStep(run: seq<State>, i: nat, p: Pid, result: Outcome)
    requires IsRun(run) && WellBehaved(run) && i + 1 < |run|
    requires p in run[i].jobs && !Done(run[i].jobs[p].phase)
    requires p in run[i + 1].jobs && run[i + 1].jobs[p].phase == Finished(result)
    ensures run[i + 1].lock == run[i].lock
    ensures || (run[i + 1].disk == run[i].disk
            && (result.Refused? || result.NotFound? || result.BadRequest? || result.Checked?))
            || AsIfAlone(run[i], run[i + 1], p)
  {
    hide Inv, AsIfAlone;
    RunKeepsInv(run, i);
    var s, s' := run[i], run[i + 1];
    var q, act :| Enabled(s, q, act) && s' == After(s, q, act);
    assert act.Body? && q == p;
    BodyMeans(s, p, act.last, act.mixed);
  }

  lemma PlannedMeans(plan: Plan, op: Op, sampled: Time, table: seq<Claim>, clock: Time)
    requires Planned(plan, op, sampled, table, clock)
    ensures Effect(plan.table, plan.outcome) == Apply(table, op, plan.pruneAt, plan.stampAt)
    ensures plan.pruneAt <= plan.stampAt <= clock && (op.Heartbeat? ==> plan.pruneAt == sampled)
  {
  }

  /** The answer and the table after it are those of `p`'s operation run alone on the table as it was,
      for clock readings no later than now. */
  ghost predicate AnswersAsIfAlone(s: State, s': State, p: Pid, result: Outcome) {
    exists pruneAt, stampAt :: AnswerAt(s, s', p, result, pruneAt, stampAt)
  }

  ghost predicate AnswerAt(s: State, s': State, p: Pid, result: Outcome, pruneAt: Time, stampAt: Time) {
    && p in s.jobs && pruneAt <= stampAt <= s.lock.clock
    && (s.jobs[p].op.Heartbeat? ==> pruneAt == s.jobs[p].sampled)
    && Effect(s'.Table(), result) == Apply(s.Table(), s.jobs[p].op, pruneAt, stampAt)
  }

  /** Linearizability: in a well-behaved run, every answer a caller gets, refusals and reports included, is
      the one its operation gives when run alone on the table at the moment it is given, and the table
      changes accordingly. */
  lemma EveryAnswerAsIfAlone(run: seq<State>, i: nat, p: Pid, result: Outcome)
    requires IsRun(run) && WellBehaved(run) && i + 1 < |run|
    requires p in run[i].jobs && !Done(run[i].jobs[p].phase)
    requires p in run[i + 1].jobs && run[i + 1].jobs[p].phase == Finished(result)
    ensures run[i + 1].jobs[p].op == run[i].jobs[p].op
    ensures AnswersAsIfAlone(run[i], run[i + 1], p, result)
  {
    hide Inv, AsIfAlone, Advance, AnswersAsIfAlone;
    RunKeepsInv(run, i);
    var s, s' := run[i], run[i + 1];
    var q, act :| Enabled(s, q, act) && s' == After(s, q, act);
    assert act.Body? && q == p;
    hide IsRun, WellBehaved, Next;
    if s.jobs[p].phase.Flushed? {
      BodyMeans(s, p, act.last, act.mixed);
      CommitAnswers(s, s', p, result);
    } else {
      ThoughtAnswers(s, p, act.last, act.mixed, result);
    }
  }

  lemma CommitAnswers(s: State, s': State, p: Pid, result: Outcome)
    requires AsIfAlone(s, s', p) && s'.jobs[p].phase == Finished(result)
    ensures AnswersAsIfAlone(s, s', p, result)
  {
    hide Apply;
    var t, u :| RanAlone(s, s', p, t, u);
    assert AnswerAt(s, s', p, result, t, u);
  }

  /** A call that comes to its result without writing. */
  lemma ThoughtAnswers(s: State, p: Pid, last: bool, mixed: Content, result: Outcome)
    requires Inv(s) && Enabled(s, p, Body(last, mixed)) && !s.jobs[p].phase.Flushed?
    requires After(s, p, Body(last, mixed)).jobs[p].phase == Finished(result)
    ensures AnswersAsIfAlone(s, After(s, p, Body(last, mixed)), p, result)
  {
    hide Inv, Lock.Inv, Planned, Prune, WithoutId, WithoutAgent, ConflictRows, Renew, HasId, NewClaim;
    var job, s' := s.jobs[p], After(s, p, Body(last, mixed));
    StepOfInv(s, p);
    assert job.phase.HaveState? || job.phase.PrunedAt?;
    assert s'.disk == s.disk;
    if job.phase.PrunedAt? {
      assert AnswerAt(s, s', p, result, job.phase.at, s.lock.clock);
    } else {
      assert AnswerAt(s, s', p, result, s.lock.clock, s.lock.clock);
    }
  }

  lemma StepOfInv(s: State, p: Pid)
    requires Inv(s) && p in s.jobs
    ensures InStep(s.jobs[p], p, s.disk, s.lock.clock)
  {
  }

  /** A caller that is told "released" has had exactly the claims it named dropped, by id or else by
      agent, as many as it was told, and every other claim left where it was. */
  lemma ReleasedMeansReleased(run: seq<State>, i: nat, p: Pid, count: int)
    requires IsRun(run) && WellBehaved(run) && i + 1 < |run|
    requires p in run[i].jobs && !Done(run[i].jobs[p].phase)
    requires p in run[i + 1].jobs && run[i + 1].jobs[p].phase == Finished(Released(count))
    ensures var op, before, after := run[i].jobs[p].op, run[i].Table(), run[i + 1].Table();
            && op.Release? && (op.claimId != "" || op.byAgent != "") && count == |before| - |after|
            && Filtered(after, before,
                        (c: Claim) => if op.claimId != "" then c.id != op.claimId else c.agent != op.byAgent)
  {
    EveryAnswerAsIfAlone(run, i, p, Released(count));
    ReleaseOf(run[i], run[i + 1], p, count);
  }

  lemma ReleaseOf(s: State, s': State, p: Pid, count: int)
    requires p in s.jobs && AnswersAsIfAlone(s, s', p, Released(count))
    ensures var op, before, after := s.jobs[p].op, s.Table(), s'.Table();
            && op.Release? && (op.claimId != "" || op.byAgent != "") && count == |before| - |after|
            && Filtered(after, before,
                        (c: Claim) => if op.claimId != "" then c.id != op.claimId else c.agent != op.byAgent)
  {
    hide Filtered;
    var t, u :| AnswerAt(s, s', p, Released(count), t, u);
    var op := s.jobs[p].op;
    assert op.Release? by { hide AnswerAt; AnsweredRelease(s.Table(), op, t, u); }
    ReleaseDrops(s.Table(), op.claimId, op.byAgent, t, u);
  }

  lemma AnsweredRelease(table: seq<Claim>, op: Op, t: Time, u: Time)
    ensures Apply(table, op, t, u).outcome.Released? <==> op.Release? && (op.claimId != "" || op.byAgent != "")
  {
  }

  /** A caller that is told "granted" has its claim in the table at that moment. */
  lemma GrantedClaimStands(run: seq<State>, i: nat, p: Pid, c: Claim, over: seq<Conflict>)
    requires IsRun(run) && WellBehaved(run) && i + 1 < |run|
    requires p in run[i].jobs && !Done(run[i].jobs[p].phase)
    requires p in run[i + 1].jobs && run[i + 1].jobs[p].phase == Finished(Granted(c, over))
    ensures c in run[i + 1].Table() && run[i].jobs[p].op.Create? && c.agent == run[i].jobs[p].op.agent
  {
    ResultStep(run, i, p, Granted(c, over));
    var t, u :| RanAlone(run[i], run[i + 1], p, t, u);
  }

  /** A caller that is refused has changed nothing by it: neither table nor file. */
  lemma RefusedChangesNothing(run: seq<State>, i: nat, p: Pid, conflicts: seq<Conflict>)
    requires IsRun(run) && WellBehaved(run) && i + 1 < |run|
    requires p in run[i].jobs && !Done(run[i].jobs[p].phase)
    requires p in run[i + 1].jobs && run[i + 1].jobs[p].phase == Finished(Refused(conflicts))
    ensures run[i + 1].Table() == run[i].Table()
  {
    ResultStep(run, i, p, Refused(conflicts));
    if run[i + 1].disk != run[i].disk {
      var t, u :| RanAlone(run[i], run[i + 1], p, t, u);
    }
  }

  // ---------------------------------------------------------------- persistence

  /** At this step a call that gives up `c` puts its table in place: a release naming it, or a
      replacing create of its own agent. */
  ghost predicate DropsNow(s: State, s': State, c: Claim) {
    exists p :: Commits(s, s', p) && GivesUp(s.jobs[p].op, c)
  }

  /** At this step a heartbeat for `c` does. */
  ghost predicate RenewsNow(s: State, s': State, c: Claim) {
    exists p :: Commits(s, s', p) && s.jobs[p].op.Heartbeat? && s.jobs[p].op.id == c.id
  }

  lemma LivingClaimStays(run: seq<State>, i: nat, c: Claim)
    requires IsRun(run) && WellBehaved(run) && i + 1 < |run|
    requires c in run[i].Table() && Alive(c, run[i].lock.clock) && !DropsNow(run[i], run[i + 1], c)
    ensures StillHeld(c, run[i + 1].Table())
    ensures !RenewsNow(run[i], run[i + 1], c) ==> c in run[i + 1].Table()
  {
    TableChangesAreWholeOperations(run, i);
    assert SameLease(c, c);
    if run[i + 1].Table() != run[i].Table() {
      var p :| AsIfAlone(run[i], run[i + 1], p);
      var t, u :| RanAlone(run[i], run[i + 1], p, t, u);
      LivingClaimSurvives(run[i].Table(), run[i].jobs[p].op, t, u, c);
    }
  }

  /** The lease of `c` runs from `i` to `k`: under its expiry of the moment, renewed or not, it
      is alive, and no call that gives it up is carried out. Calls that are refused, time out,
      die waiting or have not come to write do not matter. */
  ghost predicate Running(run: seq<State>, i: nat, k: nat, c: Claim)
    requires i <= k < |run|
  {
    forall n, d :: i <= n < k && d in run[n].Table() && SameLease(c, d) ==>
                     Alive(d, run[n].lock.clock) && !DropsNow(run[n], run[n + 1], d)
  }

  /** A lease, once in the table, stays there with its agent and paths for as long as it runs,
      renewals included. */
  lemma {:induction false} LeasePersists(run: seq<State>, i: nat, j: nat, c: Claim)
    requires IsRun(run) && WellBehaved(run) && i <= j < |run|
    requires StillHeld(c, run[i].Table()) && Running(run, i, j, c)
    ensures StillHeld(c, run[j].Table())
  {
    hide IsRun, WellBehaved, DropsNow, Alive, RenewsNow;
    if i < j {
      LeasePersists(run, i, j - 1, c);
      var d :| d in run[j - 1].Table() && SameLease(c, d);
      LivingClaimStays(run, j - 1, d);
      var e :| e in run[j].Table() && SameLease(d, e);
      assert SameLease(c, e);
    }
  }

  /** Without a renewal the very same claim stays put until the clock reaches its expiry or it
      is given up. */
  lemma {:induction false} UntouchedLeaseStays(run: seq<State>, i: nat, j: nat, c: Claim)
    requires IsRun(run) && WellBehaved(run) && i <= j < |run| && c in run[i].Table()
    requires forall k :: i <= k < j ==>
            Alive(c, run[k].lock.clock) && !DropsNow(run[k], run[k + 1], c) && !RenewsNow(run[k], run[k + 1], c)
    ensures c in run[j].Table()
  {
    hide IsRun, WellBehaved, DropsNow, Alive, RenewsNow;
    if i < j {
      UntouchedLeaseStays(run, i, j - 1, c);
      LivingClaimStays(run, j - 1, c);
    }
  }

  lemma SameLeaseSameCover(c: Claim, d: Claim, file: string)
    requires SameLease(c, d) && Covers(c, file)
    ensures Covers(d, file)
  {
  }

  lemma OneTableOneHolder(table: seq<Claim>, c: Claim, d: Claim, file: string)
    requires Exclusive(table) && StillHeld(c, table) && StillHeld(d, table)
    requires (forall p :: p in c.paths ==> Normalized(p)) && (forall p :: p in d.paths ==> Normalized(p))
    requires Normalized(file) && Covers(c, file) && Covers(d, file)
    ensures c.agent == d.agent
  {
    var e :| e in table && SameLease(c, e);
    var f :| f in table && SameLease(d, f);
    SameLeaseSameCover(c, e, file);
    SameLeaseSameCover(d, f, file);
    hide Covers, StillHeld;
    var pair := [e, f];
    assert e == pair[0] && f == pair[1];
    assert Exclusive(pair);
    ExclusiveIffNoSharedFile(pair);
  }

  /** What the leases are for: two agents whose leases both run, renewed or not, never hold a
      common file, however the calls of all processes interleaved. */
  lemma RunningGrantsShareNoFile(run: seq<State>, i: nat, j: nat, k: nat, c: Claim, d: Claim, file: string)
    requires IsRun(run) && WellBehaved(run) && i <= k < |run| && j <= k
    requires forall n :: 0 <= n < |run[0].disk.inodes| ==> Exclusive(Reads(run[0].disk.inodes[n]))
    requires forall n :: 0 <= n < |run| ==> NoForcedCreate(run[n])
    requires StillHeld(c, run[i].Table()) && Running(run, i, k, c)
    requires StillHeld(d, run[j].Table()) && Running(run, j, k, d)
    requires (forall p :: p in c.paths ==> Normalized(p)) && (forall p :: p in d.paths ==> Normalized(p))
    requires Normalized(file) && Covers(c, file) && Covers(d, file)
    ensures c.agent == d.agent
  {
    hide Covers, StillHeld, Running, AllExclusive, WellBehaved, IsRun, NoForcedCreate, Unmixed, WritesOver;
    LeasePersists(run, i, k, c);
    LeasePersists(run, j, k, d);
    forall n | 0 < n < |run| ensures Unmixed(run[n - 1], run[n]) {
      NeverMixed(run, n);
    }
    TableAlwaysExclusive(run, k);
    OneTableOneHolder(run[k].Table(), c, d, file);
  }

  // ---------------------------------------------------------------- heartbeats

  /** In a well-behaved run, the claim a successful heartbeat renews is alive at the moment it is
      written exactly when the clock is short of the truncated expiry, which counts from before
      the wait for the lock: surely after a wait of a second less than the lifetime, surely not
      after one of a whole lifetime. */
  lemma RenewedLeaseAliveIff(run: seq<State>, i: nat, p: Pid)
    requires IsRun(run) && WellBehaved(run) && i + 1 < |run|
    requires p in run[i].jobs && run[i].jobs[p].op.Heartbeat? && !Done(run[i].jobs[p].phase)
    requires p in run[i + 1].jobs && run[i + 1].jobs[p].phase == Finished(Renewed)
    ensures var job, after := run[i].jobs[p], run[i + 1].Table();
            exists k: nat :: FirstIs(after, job.op.id, k)
                             && RenewedFrom(after[k], job.sampled, job.op.ttl, run[i + 1].lock.clock)
  {
    ResultStep(run, i, p, Renewed);
    RenewalOf(run[i], run[i + 1], p);
    var job := run[i].jobs[p];
    RenewedClaim(Prune(run[i].Table(), job.sampled), job.op.id, job.op.ttl, job.sampled, run[i + 1].lock.clock);
  }

  lemma RenewalOf(s: State, s': State, p: Pid)
    requires AsIfAlone(s, s', p) && s.jobs[p].op.Heartbeat? && s'.jobs[p].phase == Finished(Renewed)
    ensures var job, kept := s.jobs[p], Prune(s.Table(), s.jobs[p].sampled);
            HasId(kept, job.op.id) && s'.Table() == Renew(kept, job.op.id, job.op.ttl, job.sampled)
  {
    hide Prune, HasId, Renew;
    var t, u :| RanAlone(s, s', p, t, u);
  }
}
