/** The lock file of `scripts/active_folders.py` (`_file_lock`) as a timed transition system.
    Every file-system call and clock reading is a step of its own, so processes interleave
    between any two of them. */
module FileLock {
  import opened Strings

  type Time = int  // microseconds
  type Pid = nat
  const TIMEOUT: int := 10_000_000
  const STALE: int := 60_000_000
  const NAP: int := 100_000

  /** The file on disk: the process that created this very file, and its modification time. */
  datatype LockFile = LockFile(creator: Pid, mtime: Time)

  /** Where a process stands in `_file_lock`. */
  datatype Pc =
    | Outside
    | Opening(deadline: Time)                 // about to call os.open with O_EXCL
    | Stamping(since: Time)                   // file created, about to write pid and time
    | Found(deadline: Time)                   // FileExistsError caught
    | ClockRead(deadline: Time, at: Time)     // time.time() taken, about to stat
    | Stealing(deadline: Time)                // age above STALE, about to unlink
    | Deciding(deadline: Time)                // age fine, about to compare with the deadline
    | Napping(deadline: Time, wake: Time)
    | InBody(since: Time)                     // inside the `with` block
    | Closing(since: Time)                    // leaving it, about to unlink
    | TimedOut
    | Crashed(holding: bool)

  datatype State = State(clock: Time, file: Option<LockFile>, pcs: map<Pid, Pc>)

  ghost predicate Init(s: State) {
    s.file == None && forall p :: p in s.pcs ==> s.pcs[p] == Outside
  }

  predicate Holding(pc: Pc) {
    pc.Stamping? || pc.InBody? || pc.Closing?
  }

  function HoldStart(pc: Pc): Time
    requires Holding(pc)
  {
    pc.since
  }

  predicate Enabled(s: State, p: Pid) {
    p in s.pcs && !s.pcs[p].Crashed? && (s.pcs[p].Napping? ==> s.clock >= s.pcs[p].wake)
  }

  function At(s: State, p: Pid, pc: Pc): State {
    s.(pcs := s.pcs[p := pc])
  }

  /** What the next action of process `p` makes of the state. */
  function After(s: State, p: Pid): State
    requires Enabled(s, p)
  {
    match s.pcs[p]
    case Outside => At(s, p, Opening(s.clock + TIMEOUT))
    case Opening(deadline) =>
      if s.file.None? then At(s, p, Stamping(s.clock)).(file := Some(LockFile(p, s.clock)))
      else At(s, p, Found(deadline))
    case Stamping(since) =>
      // The write goes to the file this process opened, if that one is still on disk.
      var mine := s.file.Some? && s.file.value.creator == p;
      At(s, p, InBody(since)).(file := if mine then Some(LockFile(p, s.clock)) else s.file)
    case Found(deadline) => At(s, p, ClockRead(deadline, s.clock))
    case ClockRead(deadline, at) =>
      var age := if s.file.Some? then at - s.file.value.mtime else 0;
      At(s, p, if age > STALE then Stealing(deadline) else Deciding(deadline))
    case Stealing(deadline) => At(s, p, Opening(deadline)).(file := None)
    case Deciding(deadline) =>
      At(s, p, if s.clock >= deadline then TimedOut else Napping(deadline, s.clock + NAP))
    case Napping(deadline, _) => At(s, p, Opening(deadline))
    case InBody(since) => At(s, p, Closing(since))
    case Closing(_) => At(s, p, Outside).(file := None)
    case TimedOut => At(s, p, Outside)
  }

  predicate Step(s: State, s': State, p: Pid) {
    Enabled(s, p) && s' == After(s, p)
  }

  /** A process may die anywhere; whatever it left on disk stays. */
  predicate Crash(s: State, s': State, p: Pid) {
    p in s.pcs && s' == At(s, p, Crashed(Holding(s.pcs[p])))
  }

  predicate Tick(s: State, s': State) {
    s'.clock >= s.clock && s' == s.(clock := s'.clock)
  }

  ghost predicate Next(s: State, s': State) {
    Tick(s, s') || exists p :: p in s.pcs && (Step(s, s', p) || Crash(s, s', p))
  }

  ghost predicate IsRun(run: seq<State>) {
    |run| > 0 && Init(run[0]) && forall i :: 0 < i < |run| ==> Next(run[i - 1], run[i])
  }

  // ---------------------------------------------------------------- the hypothesis

  /** No hold, from creating the file to unlinking it, has outlasted the stale timeout. */
  ghost predicate HoldsTimely(s: State) {
    forall p :: p in s.pcs && Holding(s.pcs[p]) ==> s.clock - HoldStart(s.pcs[p]) <= STALE
  }

  ghost predicate NoHolderCrashed(s: State) {
    forall p :: p in s.pcs ==> s.pcs[p] != Crashed(true)
  }

  ghost predicate WellBehaved(run: seq<State>) {
    forall i :: 0 <= i < |run| ==> HoldsTimely(run[i]) && NoHolderCrashed(run[i])
  }

  // ---------------------------------------------------------------- safety

  ghost predicate MutualExclusion(s: State) {
    forall p, q :: p in s.pcs && q in s.pcs && Holding(s.pcs[p]) && Holding(s.pcs[q]) ==> p == q
  }

  /** The lock file exists exactly while somebody holds it. */
  ghost predicate FileIffHeld(s: State) {
    s.file.Some? <==> exists p :: p in s.pcs && Holding(s.pcs[p])
  }

  ghost predicate NobodySteals(s: State) {
    forall p :: p in s.pcs ==> !s.pcs[p].Stealing?
  }

  ghost predicate Inv(s: State) {
    && (forall p :: p in s.pcs && Holding(s.pcs[p]) ==> s.file.Some? && s.file.value.creator == p)
    && (s.file.Some? ==>
          var f := s.file.value;
          f.creator in s.pcs && Holding(s.pcs[f.creator]) && HoldStart(s.pcs[f.creator]) <= f.mtime <= s.clock)
    && (forall p :: p in s.pcs && s.pcs[p].ClockRead? ==> s.pcs[p].at <= s.clock)
    && NobodySteals(s)
  }

  lemma InvMeansSafe(s: State)
    requires Inv(s)
    ensures MutualExclusion(s) && FileIffHeld(s) && NobodySteals(s)
  {
    if s.file.Some? {
      var p := s.file.value.creator;
      assert p in s.pcs && Holding(s.pcs[p]);
    }
  }

  lemma StepKeepsInv(s: State, s': State, p: Pid)
    requires Inv(s) && HoldsTimely(s) && Step(s, s', p)
    ensures Inv(s')
  {
  }

  lemma NextKeepsInv(s: State, s': State)
    requires Inv(s) && HoldsTimely(s) && Next(s, s') && NoHolderCrashed(s')
    ensures Inv(s')
  {
    if !Tick(s, s') {
      var p :| p in s.pcs && (Step(s, s', p) || Crash(s, s', p));
      if Step(s, s', p) {
        StepKeepsInv(s, s', p);
      } else {
        assert s'.pcs[p] == Crashed(Holding(s.pcs[p]));
      }
    }
  }

  lemma {:induction false} RunKeepsInv(run: seq<State>, i: nat)
    requires IsRun(run) && WellBehaved(run) && i < |run|
    ensures Inv(run[i])
  {
    if i > 0 {
      RunKeepsInv(run, i - 1);
      NextKeepsInv(run[i - 1], run[i]);
    }
  }

  /** Over every interleaving of any number of processes: while no holder crashes and no hold
      outlasts the stale timeout, at most one process holds the lock, the file exists exactly
      while one does, and the stale-unlink branch is never entered. */
  lemma LockSafety(run: seq<State>, i: nat)
    requires IsRun(run) && WellBehaved(run) && i < |run|
    ensures MutualExclusion(run[i]) && FileIffHeld(run[i]) && NobodySteals(run[i])
  {
    RunKeepsInv(run, i);
    InvMeansSafe(run[i]);
  }

  // ---------------------------------------------------------------- giving up

  predicate Queueing(pc: Pc) {
    pc.Opening? || pc.Found? || pc.ClockRead? || pc.Stealing? || pc.Deciding? || pc.Napping?
  }

  lemma QueueingKeepsDeadline(s: State, s': State, p: Pid)
    requires Next(s, s') && p in s.pcs && Queueing(s.pcs[p]) && p in s'.pcs
    ensures Queueing(s'.pcs[p]) ==> s'.pcs[p].deadline == s.pcs[p].deadline
    ensures s'.pcs[p].TimedOut? ==> s'.clock >= s.pcs[p].deadline
  {
  }

  /** A process that raises the timeout has waited at least LOCK_TIMEOUT_SECONDS since it
      asked for the lock, whatever the others did meanwhile. */
  lemma GivesUpOnlyAfterTimeout(run: seq<State>, p: Pid)
    requires |run| > 2 && forall i :: 0 < i < |run| ==> Next(run[i - 1], run[i])
    requires p in run[0].pcs && run[0].pcs[p] == Outside && Step(run[0], run[1], p)
    requires forall i :: 1 <= i < |run| - 1 ==> p in run[i].pcs && Queueing(run[i].pcs[p])
    requires p in run[|run| - 1].pcs && run[|run| - 1].pcs[p].TimedOut?
    ensures run[|run| - 1].clock >= run[0].clock + 10_000_000
  {
    var i := 1;
    while i < |run| - 2
      invariant 1 <= i <= |run| - 2
      invariant run[i].pcs[p].deadline == run[0].clock + TIMEOUT
    {
      QueueingKeepsDeadline(run[i], run[i + 1], p);
      i := i + 1;
    }
    QueueingKeepsDeadline(run[i], run[i + 1], p);
  }

  ghost predicate Waits(s: State, p: Pid) { p in s.pcs && Queueing(s.pcs[p]) }

  /** How many naps the deadline leaves room for from `clock` on. */
  function NapsLeft(clock: Time, deadline: Time): nat {
    if clock >= deadline then 0 else (deadline - clock + NAP - 1) / NAP
  }

  /** How many actions of its own a queueing process has left: five a nap, and those up to the look
      at the clock that ends the wait. */
  ghost function MovesLeft(s: State, p: Pid): nat
    requires Waits(s, p)
  {
    var clock := s.clock;
    match s.pcs[p]
    case Opening(deadline) => 5 * NapsLeft(clock, deadline) + 4
    case Found(deadline) => 5 * NapsLeft(clock, deadline) + 3
    case ClockRead(deadline, _) => 5 * NapsLeft(clock, deadline) + 2
    case Deciding(deadline) => 5 * NapsLeft(clock, deadline) + 1
    case Napping(deadline, wake) => 5 * NapsLeft(if wake > clock then wake else clock, deadline) + 5
    case Stealing(_) => 0
  }

  predicate Moves(s: State, s': State, p: Pid) {
    p in s.pcs && p in s'.pcs && s'.pcs[p] != s.pcs[p]
  }

  /** How often `p` itself acts between `i` and `j`. */
  function CountMoves(run: seq<State>, i: nat, j: nat, p: Pid): nat
    requires i <= j < |run|
    decreases j
  {
    if i == j then 0 else CountMoves(run, i, j - 1, p) + if Moves(run[j - 1], run[j], p) then 1 else 0
  }

  lemma NapsShrink(clock: Time, later: Time, deadline: Time)
    requires clock <= later
    ensures NapsLeft(later, deadline) <= NapsLeft(clock, deadline)
    ensures clock < deadline ==> NapsLeft(clock, deadline) == NapsLeft(clock + NAP, deadline) + 1
  {
  }

  /** Where nobody steals, each action of a queueing process uses up one of those left, and time only
      takes some away. */
  lemma MoveIsSpent(s: State, s': State, p: Pid)
    requires Next(s, s') && Waits(s, p) && Waits(s', p) && NobodySteals(s) && NobodySteals(s')
    ensures MovesLeft(s', p) + (if Moves(s, s', p) then 1 else 0) <= MovesLeft(s, p)
  {
    hide NapsLeft;
    var pc := s.pcs[p];
    NapsShrink(s.clock, s'.clock, pc.deadline);
    if pc.Napping? {
      NapsShrink(if pc.wake > s.clock then pc.wake else s.clock,
                 if pc.wake > s'.clock then pc.wake else s'.clock, pc.deadline);
    }
  }

  lemma {:induction false} MovesAreSpent(run: seq<State>, i: nat, j: nat, p: Pid)
    requires IsRun(run) && WellBehaved(run) && i <= j < |run|
    requires forall n :: i <= n <= j ==> Waits(run[n], p)
    ensures CountMoves(run, i, j, p) + MovesLeft(run[j], p) <= MovesLeft(run[i], p)
    decreases j
  {
    hide MovesLeft, IsRun, WellBehaved, Moves, Next, MutualExclusion, FileIffHeld, NobodySteals;
    if i < j {
      MovesAreSpent(run, i, j - 1, p);
      LockSafety(run, j - 1);
      LockSafety(run, j);
      assert Next(run[j - 1], run[j]) by { StepOf(run, j); }
      MoveIsSpent(run[j - 1], run[j], p);
    }
  }

  lemma StepOf(run: seq<State>, j: nat)
    requires IsRun(run) && 0 < j < |run|
    ensures Next(run[j - 1], run[j])
  {
  }

  /** While no holder crashes and no hold outlasts the stale timeout, waiting is bounded: a process
      that keeps acting holds the lock or gives up within five actions for each nap that fits into the
      timeout, and four more, whatever the others do. */
  lemma WaitingIsBounded(run: seq<State>, i: nat, j: nat, p: Pid)
    requires IsRun(run) && WellBehaved(run) && i <= j < |run|
    requires forall n :: i <= n <= j ==> Waits(run[n], p)
    requires Waits(run[i], p) && run[i].pcs[p] == Opening(run[i].clock + TIMEOUT)
    ensures CountMoves(run, i, j, p) < 504
  {
    MovesAreSpent(run, i, j, p);
    assert Waits(run[j], p);
    hide IsRun, WellBehaved;
    assert NapsLeft(run[i].clock, run[i].clock + TIMEOUT) == TIMEOUT / NAP;
    if run[j].pcs[p].Stealing? { LockSafety(run, j); }
  }

  // ---------------------------------------------------------------- the hypothesis is needed

  ghost predicate Reaches(s: State, t: State) {
    exists run :: IsRun(run) && run[0] == s && run[|run| - 1] == t
  }

  lemma ReachNext(s: State, t: State, u: State)
    requires Reaches(s, t) && Next(t, u)
    ensures Reaches(s, u)
  {
    var run :| IsRun(run) && run[0] == s && run[|run| - 1] == t;
    var longer := run + [u];
    assert IsRun(longer);
  }

  lemma ReachStep(s: State, t: State, p: Pid)
    requires Reaches(s, t) && Enabled(t, p)
    ensures Reaches(s, After(t, p))
  {
    assert Step(t, After(t, p), p);
    ReachNext(s, t, After(t, p));
  }

  function Two(): State { State(0, None, map[0 := Outside, 1 := Outside]) }

  /** One hold that outlasts the stale timeout by any amount at all admits a second holder,
      with nobody crashed. */
  lemma OverlongHoldBreaksExclusion(extra: int) returns (end: State)
    requires extra > 0
    ensures Reaches(Two(), end) && NoHolderCrashed(end) && !MutualExclusion(end)
    ensures 0 in end.pcs && Holding(end.pcs[0]) && end.clock - HoldStart(end.pcs[0]) == STALE + extra
  {
    var s := Two();
    assert IsRun([s]);
    assert [s][0] == s;
    var held := FirstHolds(s);
    var late := held.(clock := STALE + extra);
    ReachNext(s, held, late);
    end := Steals(s, late, 1);
    end := EntersFresh(s, end, 1);
    assert 0 in end.pcs && 1 in end.pcs;
  }

  /** Process 0 takes the free lock at once. */
  lemma FirstHolds(s: State) returns (t: State)
    requires 0 in s.pcs && s.pcs[0] == Outside && s.file == None && Reaches(s, s)
    ensures Reaches(s, t) && t == s.(pcs := s.pcs[0 := InBody(s.clock)], file := Some(LockFile(0, s.clock)))
  {
    var a := After(s, 0);
    ReachStep(s, s, 0);
    var b := After(a, 0);
    ReachStep(s, a, 0);
    t := After(b, 0);
    ReachStep(s, b, 0);
    assert t.pcs == s.pcs[0 := InBody(s.clock)];
  }

  /** Process `p` arrives, sees a file older than the timeout, and reaches the unlink. */
  lemma Steals(s: State, t: State, p: Pid) returns (u: State)
    requires Reaches(s, t) && p in t.pcs && t.pcs[p] == Outside && t.file.Some?
    requires t.clock - t.file.value.mtime > STALE
    ensures Reaches(s, u) && u == t.(pcs := t.pcs[p := Stealing(t.clock + TIMEOUT)])
  {
    var a := After(t, p);
    ReachStep(s, t, p);
    var b := After(a, p);
    ReachStep(s, a, p);
    var c := After(b, p);
    ReachStep(s, b, p);
    u := After(c, p);
    ReachStep(s, c, p);
    assert u.pcs == t.pcs[p := Stealing(t.clock + TIMEOUT)];
  }

  /** A process at the unlink removes whatever file is there and creates its own. */
  lemma EntersFresh(s: State, t: State, p: Pid) returns (u: State)
    requires Reaches(s, t) && p in t.pcs && t.pcs[p].Stealing?
    ensures Reaches(s, u) && u == t.(pcs := t.pcs[p := Stamping(t.clock)], file := Some(LockFile(p, t.clock)))
  {
    var a := After(t, p);
    ReachStep(s, t, p);
    u := After(a, p);
    ReachStep(s, a, p);
    assert u.pcs == t.pcs[p := Stamping(t.clock)];
  }

  lemma StartReaches(s: State)
    requires Init(s)
    ensures Reaches(s, s)
  {
    assert IsRun([s]) && [s][0] == s;
  }

  /** Process 0 about to open the lock with a deadline that counts from the start, after so many stale
      timeouts; the lock free, process 1 outside. */
  function StillWaiting(rounds: nat): State {
    State(rounds * (STALE + 1), None, map[0 := Opening(TIMEOUT), 1 := Outside])
  }

  /** The branch that unlinks a stale file goes back to the start without a look at the deadline. So
      with one hold after another past the stale timeout, and nobody crashed, a process waits on through
      any number of stale timeouts, each six times its own. */
  lemma {:induction false} OverlongHoldersStarve(rounds: nat)
    ensures Reaches(Two(), StillWaiting(rounds))
    ensures NoHolderCrashed(StillWaiting(rounds)) && Waits(StillWaiting(rounds), 0)
  {
    hide Reaches;
    if rounds == 0 {
      StartReaches(Two());
      ReachStep(Two(), Two(), 0);
      assert After(Two(), 0) == StillWaiting(0);
    } else {
      OverlongHoldersStarve(rounds - 1);
      var held := HoldsLong(Two(), StillWaiting(rounds - 1));
      OneMoreRound(Two(), held, rounds);
    }
  }

  /** Process 1 takes the lock and holds it past the stale timeout. */
  lemma HoldsLong(s: State, t: State) returns (u: State)
    requires Reaches(s, t) && 1 in t.pcs && t.pcs[1] == Outside && t.file == None
    ensures Reaches(s, u) && u.clock == t.clock + STALE + 1 && u.file == Some(LockFile(1, t.clock))
    ensures u.pcs == t.pcs[1 := InBody(t.clock)]
  {
    hide Reaches;
    ReachStep(s, t, 1);
    var a := After(t, 1);
    ReachStep(s, a, 1);
    var b := After(a, 1);
    ReachStep(s, b, 1);
    var c := After(b, 1);
    u := c.(clock := t.clock + STALE + 1);
    ReachNext(s, c, u);
    assert u.pcs == t.pcs[1 := InBody(t.clock)];
  }

  /** Process 0 finds the file stale and unlinks it; process 1 leaves. */
  lemma OneMoreRound(s: State, t: State, rounds: nat)
    requires Reaches(s, t) && rounds > 0
    requires t.clock == rounds * (STALE + 1) && t.file == Some(LockFile(1, t.clock - STALE - 1))
    requires t.pcs == map[0 := Opening(TIMEOUT), 1 := InBody(t.clock - STALE - 1)]
    ensures Reaches(s, StillWaiting(rounds))
  {
    hide Reaches;
    ReachStep(s, t, 0);
    var a := After(t, 0);
    ReachStep(s, a, 0);
    var b := After(a, 0);
    ReachStep(s, b, 0);
    var c := After(b, 0);
    ReachStep(s, c, 0);
    var d := After(c, 0);
    assert d.file.None? && d.pcs == t.pcs;
    ReachStep(s, d, 1);
    var e := After(d, 1);
    ReachStep(s, e, 1);
    assert After(e, 1) == StillWaiting(rounds);
  }

  function Three(): State { State(0, None, map[0 := Outside, 1 := Outside, 2 := Outside]) }

  /** One crashed holder suffices too, although every live hold is fresh: two waiters judge
      the abandoned file stale, and the slower unlinks the lock the faster has just created. */
  lemma CrashedHolderBreaksExclusion() returns (end: State)
    ensures Reaches(Three(), end) && HoldsTimely(end) && !MutualExclusion(end)
    ensures end.pcs == map[0 := Crashed(true), 1 := Stamping(end.clock), 2 := Stamping(end.clock)]
  {
    var s := Three();
    assert IsRun([s]);
    assert [s][0] == s;
    var held := FirstHolds(s);
    var dead := At(held, 0, Crashed(true));
    assert Crash(held, dead, 0);
    ReachNext(s, held, dead);
    var late := dead.(clock := STALE + 1);
    ReachNext(s, dead, late);
    var one := Steals(s, late, 1);
    var both := Steals(s, one, 2);
    var first := EntersFresh(s, both, 1);
    end := EntersFresh(s, first, 2);
    assert 1 in end.pcs && 2 in end.pcs && Holding(end.pcs[1]) && Holding(end.pcs[2]);
  }
}
