/** The polling loop of `evolve_supervisor/spend_governor.py` that watches a running child
    (`monitor_process_with_spend_watchdog`). Times are in milliseconds. */
module SpendWatchdog {

  const DEFAULT_INTERVAL: int := 5000
  const LEAST_INTERVAL: int := 50
  const LEAST_TIMEOUT: int := 1000

  /** A spend check's verdict, or one of the exceptions the loop catches. */
  datatype Check = Passes | Fails | Raises

  /** What the world does while the loop waits for the child for a given time: the child ends
      within it, or the wait runs out (late by `late`) and a check of some duration follows. */
  datatype Round = Exits(within: nat, code: int) | StillRunning(late: nat, check: Check, checkTakes: nat)

  /** The rounds to come, indexed by how many polls were made before. */
  type World = nat -> Round

  datatype Event = Waited(limit: int) | Checked(check: Check) | Terminated

  datatype Result = Result(returncode: int, timedOut: bool, watchdogTriggered: bool)

  datatype Run = Run(events: seq<Event>, result: Result, endedAt: int)

  function Max(a: int, b: int): int { if a >= b then a else b }
  function Min(a: int, b: int): int { if a <= b then a else b }

  /** `max(0.05, float(interval or default))`: zero selects the default. */
  function Interval(requested: int): int {
    Max(LEAST_INTERVAL, if requested == 0 then DEFAULT_INTERVAL else requested)
  }

  /** The interval in milliseconds: none asked for means five seconds, and less than fifty, negative
      included, means fifty. */
  lemma IntervalOf(requested: int)
    ensures Interval(0) == 5000
    ensures requested != 0 ==> Interval(requested) == if requested < 50 then 50 else requested
  {
  }

  /** The loop from clock reading `now`, with `polls` made so far. */
  function Watch(world: World, polls: nat, now: int, deadline: int, interval: int): (run: Run)
    requires interval > 0
    decreases deadline - now
  {
    if deadline - now <= 0 then
      Run([Terminated], Result(124, true, false), now)
    else
      var limit, round := Min(interval, deadline - now), world(polls);
      if round.Exits? then
        Run([Waited(limit)], Result(round.code, false, false), now + Min(round.within, limit))
      else if round.check.Passes? then
        After([Waited(limit), Checked(round.check)],
              Watch(world, polls + 1, NextClock(round, now, limit), deadline, interval))
      else
        Run([Waited(limit), Checked(round.check), Terminated], Result(125, false, true), NextClock(round, now, limit))
  }

  /** The clock after a wait of `limit` that ran out and the check that followed. */
  function NextClock(round: Round, now: int, limit: int): (next: int)
    requires round.StillRunning?
    ensures next >= now + limit
  {
    now + limit + round.late + round.checkTakes
  }

  /** `monitor_process_with_spend_watchdog`. */
  method Monitor(world: World, start: int, timeout: int, requestedInterval: int) returns (run: Run)
    ensures run == Watch(world, 0, start, start + Max(LEAST_TIMEOUT, timeout), Interval(requestedInterval))
    ensures WellShaped(run.events, run.result, Interval(requestedInterval))
    ensures CountWaits(run.events) <= Budget(Max(LEAST_TIMEOUT, timeout), Interval(requestedInterval))
  {
    var deadline := start + Max(LEAST_TIMEOUT, timeout);
    var interval := Interval(requestedInterval);
    run := PollUntilDone(world, start, deadline, interval);
    RunsAreWellShaped(world, 0, start, deadline, interval);
    PollsBounded(world, 0, start, deadline, interval);
  }

  /** The `while True` loop, its deadline and interval fixed. */
  method PollUntilDone(world: World, start: int, deadline: int, interval: int) returns (run: Run)
    requires interval > 0
    ensures run == Watch(world, 0, start, deadline, interval)
  {
    var events: seq<Event> := [];
    var now, polls := start, 0;
    ghost var whole := Watch(world, 0, start, deadline, interval);
    assert [] + whole.events == whole.events;
    while true
      invariant polls >= 0
      invariant whole == After(events, Watch(world, polls, now, deadline, interval))
      decreases deadline - now
    {
      var remaining := deadline - now;
      if remaining <= 0 {
        return Run(events + [Terminated], Result(124, true, false), now);
      }
      var limit := Min(interval, remaining);
      var round := world(polls);
      if round.Exits? {
        return Run(events + [Waited(limit)], Result(round.code, false, false), now + Min(round.within, limit));
      }
      var next := NextClock(round, now, limit);
      if !round.check.Passes? {
        return Run(events + [Waited(limit), Checked(round.check), Terminated], Result(125, false, true), next);
      }
      AfterTwice(events, [Waited(limit), Checked(round.check)], Watch(world, polls + 1, next, deadline, interval));
      events, now, polls := events + [Waited(limit), Checked(round.check)], next, polls + 1;
    }
  }

  /** `run` with the events `done` before it. */
  function After(done: seq<Event>, run: Run): Run {
    run.(events := done + run.events)
  }

  lemma AfterTwice(first: seq<Event>, second: seq<Event>, run: Run)
    ensures After(first, After(second, run)) == After(first + second, run)
  {
    assert first + (second + run.events) == (first + second) + run.events;
  }

  // ---------------------------------------------------------------- how a run may look

  /** A run's events are rounds of one bounded wait and one passing check, then one of three
      endings: the child leaves during a wait; a check fails or raises and the child is
      terminated; the deadline comes and the child is terminated. */
  predicate WellShaped(events: seq<Event>, result: Result, interval: int) {
    if |events| == 0 then false
    else if events[0].Terminated? then
      |events| == 1 && result.timedOut && !result.watchdogTriggered && result.returncode == 124
    else if !events[0].Waited? || !(0 < events[0].limit <= interval) then false
    else if |events| == 1 then !result.timedOut && !result.watchdogTriggered
    else if !events[1].Checked? then false
    else if events[1].check.Passes? then WellShaped(events[2..], result, interval)
    else events[2..] == [Terminated] && !result.timedOut && result.watchdogTriggered && result.returncode == 125
  }

  lemma {:induction false} RunsAreWellShaped(world: World, polls: nat, now: int, deadline: int, interval: int)
    requires interval > 0
    ensures var run := Watch(world, polls, now, deadline, interval); WellShaped(run.events, run.result, interval)
    decreases deadline - now
  {
    if deadline - now > 0 && world(polls).StillRunning? && world(polls).check.Passes? {
      var round := world(polls);
      var next := NextClock(round, now, Min(interval, deadline - now));
      RunsAreWellShaped(world, polls + 1, next, deadline, interval);
      var rest := Watch(world, polls + 1, next, deadline, interval);
      assert ([Waited(Min(interval, deadline - now)), Checked(round.check)] + rest.events)[2..] == rest.events;
    }
  }

  function CountTerminated(events: seq<Event>): nat {
    if events == [] then 0 else (if events[0].Terminated? then 1 else 0) + CountTerminated(events[1..])
  }

  lemma RoundCounts(limit: int, check: Check, rest: seq<Event>)
    ensures CountWaits([Waited(limit), Checked(check)] + rest) == 1 + CountWaits(rest)
  {
    var events := [Waited(limit), Checked(check)] + rest;
    assert events[1..] == [Checked(check)] + rest;
    assert events[1..][1..] == rest;
  }

  lemma EndingCounts(limit: int, round: Round)
    ensures CountWaits([Waited(limit)]) == 1 && CountWaits([Terminated]) == 0
    ensures round.StillRunning? ==> CountWaits([Waited(limit), Checked(round.check), Terminated]) == 1
  {
    assert [Waited(limit)][1..] == [] && [Terminated][1..] == [];
    if round.StillRunning? {
      RoundCounts(limit, round.check, [Terminated]);
      assert [Waited(limit), Checked(round.check), Terminated] == [Waited(limit), Checked(round.check)] + [Terminated];
    }
  }

  function CountWaits(events: seq<Event>): nat {
    if events == [] then 0 else (if events[0].Waited? then 1 else 0) + CountWaits(events[1..])
  }

  /** The child is terminated at most once, as the very last thing, and exactly when the
      result says timed out or watchdog triggered, never both. */
  lemma {:induction false} TerminatedExactlyOnce(events: seq<Event>, result: Result, interval: int)
    requires WellShaped(events, result, interval)
    ensures CountTerminated(events) == if result.timedOut || result.watchdogTriggered then 1 else 0
    ensures result.timedOut || result.watchdogTriggered <==> events[|events| - 1].Terminated?
    ensures !(result.timedOut && result.watchdogTriggered)
  {
    if |events| == 1 {
      assert events[1..] == [];
    } else {
      assert events[1..][1..] == events[2..];
      if events[1].check.Passes? {
        TerminatedExactlyOnce(events[2..], result, interval);
        assert events[|events| - 1] == events[2..][|events[2..]| - 1];
      } else {
        assert CountTerminated([Terminated]) == 1 by { assert [Terminated][1..] == []; }
        assert events[|events| - 1] == events[2..][0];
      }
    }
  }

  /** How many waits of `interval` fit into `span`, the last perhaps cut short. */
  function Budget(span: int, interval: int): nat
    requires interval > 0
    decreases span
  {
    if span <= 0 then 0 else 1 + Budget(span - interval, interval)
  }

  /** That is ceil(span / interval), the least number of intervals that cover the span. */
  lemma {:induction false} BudgetIsCeil(span: nat, interval: int)
    requires interval > 0
    ensures (Budget(span, interval) - 1) * interval < span <= Budget(span, interval) * interval
    decreases span
  {
    var b := Budget(span, interval);
    if span > 0 {
      Distribute(b - 1, interval);
      if span > interval {
        BudgetIsCeil(span - interval, interval);
        Distribute(b - 2, interval);
      }
    }
  }

  lemma Distribute(b: int, interval: int)
    ensures (b + 1) * interval == b * interval + interval
  {
  }

  lemma {:induction false} BudgetMonotone(less: int, span: int, interval: int)
    requires interval > 0 && less <= span
    ensures Budget(less, interval) <= Budget(span, interval)
    decreases span
  {
    if less > 0 { BudgetMonotone(less - interval, span - interval, interval); }
  }

  /** The loop makes at most ceil(time left / interval) polls, whatever the child and the
      checks do; so it always ends. */
  lemma {:induction false} PollsBounded(world: World, polls: nat, now: int, deadline: int, interval: int)
    requires interval > 0
    ensures CountWaits(Watch(world, polls, now, deadline, interval).events) <= Budget(deadline - now, interval)
    decreases deadline - now
  {
    if deadline - now > 0 {
      var limit, round := Min(interval, deadline - now), world(polls);
      if round.Exits? {
        EndingCounts(limit, round);
      } else if round.check.Passes? {
        var next := NextClock(round, now, limit);
        PollsBounded(world, polls + 1, next, deadline, interval);
        RoundCounts(limit, round.check, Watch(world, polls + 1, next, deadline, interval).events);
        if interval <= deadline - now {
          BudgetMonotone(deadline - next, deadline - now - interval, interval);
        }
      } else {
        EndingCounts(limit, round);
      }
    } else {
      EndingCounts(0, world(polls));
    }
  }

  // ---------------------------------------------------------------- what ended the run

  /** Clock reading before poll `k` when every earlier round let the loop go on. */
  function ClockAt(world: World, k: nat, start: int, deadline: int, interval: int): int {
    if k == 0 then start
    else
      var before := ClockAt(world, k - 1, start, deadline, interval);
      if world(k - 1).Exits? then before else NextClock(world(k - 1), before, Min(interval, deadline - before))
  }

  predicate GoesOn(round: Round) { round.StillRunning? && round.check.Passes? }

  /** The loop got past poll `j`: it was in time, the child ran on and the check passed. */
  ghost predicate WentOn(world: World, j: nat, start: int, deadline: int, interval: int) {
    ClockAt(world, j, start, deadline, interval) < deadline && GoesOn(world(j))
  }

  /** Poll `k` is where the run stops: all rounds before it went on in time, and at `k` the
      deadline has come, the child exits, or the check does not pass. */
  ghost predicate StopsAt(world: World, k: nat, start: int, deadline: int, interval: int) {
    && (forall j :: 0 <= j < k ==> WentOn(world, j, start, deadline, interval))
    && !WentOn(world, k, start, deadline, interval)
  }

  lemma {:induction false} RunFromPoll(world: World, k: nat, start: int, deadline: int, interval: int)
    requires interval > 0
    requires forall j :: 0 <= j < k ==> WentOn(world, j, start, deadline, interval)
    ensures Watch(world, 0, start, deadline, interval).result ==
            Watch(world, k, ClockAt(world, k, start, deadline, interval), deadline, interval).result
    ensures Watch(world, 0, start, deadline, interval).endedAt ==
            Watch(world, k, ClockAt(world, k, start, deadline, interval), deadline, interval).endedAt
  {
    if k > 0 {
      RunFromPoll(world, k - 1, start, deadline, interval);
      assert WentOn(world, k - 1, start, deadline, interval);
    }
  }

  /** A run that times out ends at the clock reading that shows it; a child's own exit ends it within the
      wait, which is never longer than the interval or the time left; and a check that does not pass ends
      it once wait and check are over. */
  ghost predicate EndsInTime(world: World, k: nat, start: int, deadline: int, interval: int)
    requires interval > 0
  {
    var end, before := Watch(world, 0, start, deadline, interval).endedAt, ClockAt(world, k, start, deadline, interval);
    var wait := if interval < deadline - before then interval else deadline - before;
    if before >= deadline then end == before
    else
      match world(k)
      case Exits(within, _) => end == before + (if within < wait then within else wait) <= deadline
      case StillRunning(late, _, takes) => end == before + wait + late + takes
  }

  /** Fail closed, exactly: the run is decided by the first round that does not go on. The
      deadline there means timed out; otherwise a child that exits there is left alone and
      keeps its own code, and a check that fails or raises there gets it killed with 125. */
  lemma FirstStopDecides(world: World, k: nat, start: int, timeout: int, requested: int)
    requires StopsAt(world, k, start, start + Max(LEAST_TIMEOUT, timeout), Interval(requested))
    ensures var deadline, interval := start + Max(LEAST_TIMEOUT, timeout), Interval(requested);
            Watch(world, 0, start, deadline, interval).result ==
              if ClockAt(world, k, start, deadline, interval) >= deadline then Result(124, true, false)
              else if world(k).Exits? then Result(world(k).code, false, false)
              else Result(125, false, true)
    ensures EndsInTime(world, k, start, start + Max(LEAST_TIMEOUT, timeout), Interval(requested))
  {
    RunFromPoll(world, k, start, start + Max(LEAST_TIMEOUT, timeout), Interval(requested));
  }

  /** A run says it timed out only once a second has passed since its start, and all the time it was given. */
  lemma TimesOutOnlyLate(world: World, start: int, timeout: int, requested: int)
    ensures var run := Watch(world, 0, start, start + Max(LEAST_TIMEOUT, timeout), Interval(requested));
            run.result.timedOut ==> run.endedAt >= start + 1000 && run.endedAt >= start + timeout
  {
    var k := SomeRoundStops(world, 0, start, start + Max(LEAST_TIMEOUT, timeout), Interval(requested));
    FirstStopDecides(world, k, start, timeout, requested);
  }

  /** There always is such a round. */
  lemma {:induction false} SomeRoundStops(world: World, polls: nat, start: int, deadline: int, interval: int)
    returns (k: nat)
    requires interval > 0
    requires forall j :: 0 <= j < polls ==> WentOn(world, j, start, deadline, interval)
    ensures StopsAt(world, k, start, deadline, interval)
    decreases deadline - ClockAt(world, polls, start, deadline, interval)
  {
    if !WentOn(world, polls, start, deadline, interval) {
      k := polls;
    } else {
      k := SomeRoundStops(world, polls + 1, start, deadline, interval);
    }
  }
}
