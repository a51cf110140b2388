/** `evolve_supervisor/spend_governor.py`: the append-only spend ledger, the caps, and the
    check-then-append of one reserve per child step. */
module SpendGovernor {
  import opened Strings

  // ---------------------------------------------------------------- the ledger

  datatype RecordedAt = Absent | Unparsable | On(day: string)

  /** One line of the ledger file, as far as JSON parsing has brought it. */
  datatype Line =
    | Blank
    | NotJson
    | NotObject
    | BadUsd
    | Row(usd: real, recordedAt: RecordedAt, source: string, day: string)

  const RESERVE_SOURCE := "blue_evolve_child_reserve"

  /** The day a row counts for; `None` where `_recorded_day` raises. */
  function RecordedDay(row: Line): Option<string>
    requires row.Row?
  {
    match row.recordedAt
    case On(day) => Some(day)
    case Unparsable => None
    case Absent => if row.source == RESERVE_SOURCE then None else Some(row.day)
  }

  predicate LineReadable(line: Line) {
    line.Blank? || (line.Row? && RecordedDay(line).Some?)
  }

  predicate Readable(lines: seq<Line>) {
    forall i :: 0 <= i < |lines| ==> LineReadable(lines[i])
  }

  function Usd(line: Line): real {
    if line.Row? && line.usd > 0.0 then line.usd else 0.0
  }

  function UsdOn(line: Line, day: string): real {
    if line.Row? && RecordedDay(line) == Some(day) then Usd(line) else 0.0
  }

  function Total(lines: seq<Line>): (t: real)
    ensures t >= 0.0
  {
    if lines == [] then 0.0 else Total(lines[..|lines| - 1]) + Usd(lines[|lines| - 1])
  }

  function DaySum(lines: seq<Line>, day: string): (t: real)
    ensures 0.0 <= t <= Total(lines)
  {
    if lines == [] then 0.0 else DaySum(lines[..|lines| - 1], day) + UsdOn(lines[|lines| - 1], day)
  }

  /** (daily, total), or `None` when some line makes the reader raise. */
  function LedgerSums(lines: seq<Line>, today: string): Option<(real, real)> {
    if Readable(lines) then Some((DaySum(lines, today), Total(lines))) else None
  }

  /** `_read_spend_ledger`: one pass over the lines, giving up at the first bad one. */
  method ReadSpendLedger(lines: seq<Line>, today: string) returns (sums: Option<(real, real)>)
    ensures sums == LedgerSums(lines, today)
  {
    var daily, total := 0.0, 0.0;
    for i := 0 to |lines|
      invariant Readable(lines[..i])
      invariant daily == DaySum(lines[..i], today) && total == Total(lines[..i])
    {
      assert lines[..i + 1][..i] == lines[..i];
      var line := lines[i];
      if line.Blank? {
        continue;
      }
      if !line.Row? {
        return None;
      }
      var usd := if line.usd > 0.0 then line.usd else 0.0;
      total := total + usd;
      var day := RecordedDay(line);
      if day.None? {
        return None;
      }
      if day.value == today {
        daily := daily + usd;
      }
    }
    assert lines[..|lines|] == lines;
    sums := Some((daily, total));
  }

  // ---------------------------------------------------------------- the verdict

  /** A numeric setting: missing counts as zero, text that is no number is an error. */
  datatype Setting = Unset | NotANumber | Num(value: real)

  datatype Config =
    | ConfigMissing
    | ConfigUnreadable
    | NoSection
    | Section(enabled: bool, dailyCap: Setting, totalCap: Setting, reserve: Setting, ledgerPathValid: bool)

  datatype Code =
    | MissingConfig | InvalidConfig | Disabled | NoCap | NoReserve | InvalidLedger
    | OverDailyCap | OverTotalCap | WithinBudget | WriteFailed | LedgerAppended

  datatype Verdict = Verdict(ok: bool, enabled: bool, code: Code, daily: real, total: real, reserved: real)

  /** `_as_float`: `None` where it raises. */
  function AsFloat(s: Setting): Option<real> {
    match s
    case Unset => Some(0.0)
    case NotANumber => None
    case Num(v) => if v < 0.0 then None else Some(v)
  }

  function Evaluate(config: Config, lines: seq<Line>, today: string): Verdict {
    if config.ConfigMissing? then Verdict(true, false, MissingConfig, 0.0, 0.0, 0.0)
    else if config.ConfigUnreadable? then Verdict(false, true, InvalidConfig, 0.0, 0.0, 0.0)
    else if config.NoSection? || !config.enabled then Verdict(true, false, Disabled, 0.0, 0.0, 0.0)
    else
      var daily, total, reserve := AsFloat(config.dailyCap), AsFloat(config.totalCap), AsFloat(config.reserve);
      if daily.None? || total.None? || reserve.None? || !config.ledgerPathValid then
        Verdict(false, true, InvalidConfig, 0.0, 0.0, 0.0)
      else if daily.value <= 0.0 && total.value <= 0.0 then Verdict(false, true, NoCap, 0.0, 0.0, 0.0)
      else if reserve.value <= 0.0 then Verdict(false, true, NoReserve, 0.0, 0.0, reserve.value)
      else
        var sums := LedgerSums(lines, today);
        if sums.None? then Verdict(false, true, InvalidLedger, 0.0, 0.0, reserve.value)
        else
          var (spentToday, spent) := sums.value;
          if daily.value > 0.0 && spentToday + reserve.value > daily.value then
            Verdict(false, true, OverDailyCap, spentToday, spent, reserve.value)
          else if total.value > 0.0 && spent + reserve.value > total.value then
            Verdict(false, true, OverTotalCap, spentToday, spent, reserve.value)
          else Verdict(true, true, WithinBudget, spentToday, spent, reserve.value)
  }

  /** The settings under which the governor governs at all. */
  predicate Governing(config: Config) {
    config.Section? && config.enabled && config.ledgerPathValid
    && AsFloat(config.dailyCap).Some? && AsFloat(config.totalCap).Some? && AsFloat(config.reserve).Some?
    && (DailyCap(config) > 0.0 || TotalCap(config) > 0.0) && Reserve(config) > 0.0
  }

  function Positive(s: Setting): real {
    if AsFloat(s).Some? then AsFloat(s).value else 0.0
  }

  function DailyCap(config: Config): real { if config.Section? then Positive(config.dailyCap) else 0.0 }
  function TotalCap(config: Config): real { if config.Section? then Positive(config.totalCap) else 0.0 }
  function Reserve(config: Config): real { if config.Section? then Positive(config.reserve) else 0.0 }

  /** No cap that is switched on (positive) is exceeded by `amount`. */
  predicate Under(cap: real, amount: real) { cap > 0.0 ==> amount <= cap }

  /** An enabled governor says yes exactly when its settings are sound, the whole ledger can
      be read, and one more reserve fits under every positive cap. */
  lemma WithinBudgetIff(config: Config, lines: seq<Line>, today: string)
    ensures var v := Evaluate(config, lines, today);
            && (v.ok && v.enabled <==>
                 Governing(config) && Readable(lines)
                 && Under(DailyCap(config), DaySum(lines, today) + Reserve(config))
                 && Under(TotalCap(config), Total(lines) + Reserve(config)))
            && (v.ok && v.enabled ==> v.reserved == Reserve(config))
            && (!v.enabled <==> config.ConfigMissing? || config.NoSection? || (config.Section? && !config.enabled))
            && (!v.enabled ==> v.ok)
  {
  }

  // ---------------------------------------------------------------- what counts

  lemma NothingSpent(day: string)
    ensures Total([]) == 0.0 && DaySum([], day) == 0.0 && Readable([])
  {
  }

  /** One more row adds its amount, if positive, to the total, whatever its source and date, and to
      exactly the day its time of recording falls on, or the day it names if it has no such time. It
      leaves the ledger readable exactly if that time parses, or is absent and the row is no reserve. */
  lemma RowCounts(lines: seq<Line>, usd: real, at: RecordedAt, source: string, day: string, other: string)
    ensures var after, worth := lines + [Row(usd, at, source, day)], if usd > 0.0 then usd else 0.0;
            && Total(after) == Total(lines) + worth
            && (at == On(other) ==> DaySum(after, other) == DaySum(lines, other) + worth)
            && (at.On? && at != On(other) ==> DaySum(after, other) == DaySum(lines, other))
            && (at.Absent? && source != "blue_evolve_child_reserve" ==>
                    DaySum(after, other) == DaySum(lines, other) + (if other == day then worth else 0.0))
            && (Readable(after) <==>
                 Readable(lines) && (at.On? || (at.Absent? && source != "blue_evolve_child_reserve")))
  {
    AppendSums(lines, Row(usd, at, source, day), other);
  }

  /** Any other line adds nothing, and only a blank one leaves the ledger readable. */
  lemma OtherLinesCountNothing(lines: seq<Line>, line: Line, day: string)
    requires !line.Row?
    ensures Total(lines + [line]) == Total(lines) && DaySum(lines + [line], day) == DaySum(lines, day)
    ensures Readable(lines + [line]) <==> Readable(lines) && line.Blank?
  {
    AppendSums(lines, line, day);
  }

  /** The verdict of an enabled governor on numeric settings: which of the causes it names, and the sums
      it reports. */
  lemma VerdictNames(daily: real, total: real, reserve: real, lines: seq<Line>, today: string)
    ensures var v := Evaluate(Section(true, Num(daily), Num(total), Num(reserve), true), lines, today);
            var spentToday, spent := DaySum(lines, today), Total(lines);
            var sound := daily >= 0.0 && total >= 0.0 && reserve > 0.0 && (daily > 0.0 || total > 0.0);
            && v.enabled && (v.ok <==> v.code == WithinBudget)
            && (v.code == InvalidConfig <==> daily < 0.0 || total < 0.0 || reserve < 0.0)
            && (v.code == NoCap <==> daily == 0.0 && total == 0.0 && reserve >= 0.0)
            && (v.code == NoReserve <==> daily >= 0.0 && total >= 0.0 && (daily > 0.0 || total > 0.0) && reserve == 0.0)
            && (v.code == InvalidLedger <==> sound && !Readable(lines))
            && (v.code == OverDailyCap <==>
                 sound && Readable(lines) && daily > 0.0 && spentToday + reserve > daily)
            && (v.code == OverTotalCap <==>
                 sound && Readable(lines) && !(daily > 0.0 && spentToday + reserve > daily)
                 && total > 0.0 && spent + reserve > total)
            && (v.code in {OverDailyCap, OverTotalCap, WithinBudget} ==>
                    v.daily == spentToday && v.total == spent && v.reserved == reserve)
  {
  }

  // ---------------------------------------------------------------- recording

  datatype WriteResult = WriteResult(ok: bool, enabled: bool, code: Code, usd: real)

  datatype Recorded = Recorded(lines: seq<Line>, result: WriteResult)

  /** `record_evolve_child_spend`: `today` is the day the caps were checked for, `stamp` what
      the entry is dated with (read from the clock later, or built from the caller's day). */
  function Record(config: Config, lines: seq<Line>, today: string, stamp: RecordedAt, diskOk: bool): Recorded {
    var v := Evaluate(config, lines, today);
    if !v.enabled then Recorded(lines, WriteResult(true, false, v.code, 0.0))
    else if !v.ok then Recorded(lines, WriteResult(false, true, v.code, v.reserved))
    else if !diskOk then Recorded(lines, WriteResult(false, true, WriteFailed, v.reserved))
    else
      var entry := Row(v.reserved, stamp, RESERVE_SOURCE, if stamp.On? then stamp.day else today);
      Recorded(lines + [entry], WriteResult(true, true, LedgerAppended, v.reserved))
  }

  predicate Appended(r: Recorded) { r.result.code == LedgerAppended }

  lemma AppendSums(lines: seq<Line>, entry: Line, day: string)
    ensures Total(lines + [entry]) == Total(lines) + Usd(entry)
    ensures DaySum(lines + [entry], day) == DaySum(lines, day) + UsdOn(entry, day)
    ensures Readable(lines + [entry]) <==> Readable(lines) && LineReadable(entry)
  {
    var longer := lines + [entry];
    assert longer[..|lines|] == lines;
    assert forall i :: 0 <= i < |lines| ==> longer[i] == lines[i];
    assert longer[|lines|] == entry;
  }

  /** A recorded step adds exactly one reserve, to its own day and to the total; anything
      else leaves the ledger as it was. */
  lemma RecordAddsOneReserve(config: Config, lines: seq<Line>, today: string, stamp: RecordedAt, diskOk: bool,
      day: string)
    ensures var r := Record(config, lines, today, stamp, diskOk);
            && (Appended(r) <==> diskOk && Evaluate(config, lines, today).enabled && Evaluate(config, lines, today).ok)
            && (Appended(r) ==> r.result.ok && Total(r.lines) == Total(lines) + Reserve(config)
                                && DaySum(r.lines, day)
                                   == DaySum(lines, day) + (if stamp == On(day) then Reserve(config) else 0.0))
            && (!Appended(r) ==> r.lines == lines)
            && (r.result.ok <==> Appended(r) || !r.result.enabled)
  {
    WithinBudgetIff(config, lines, today);
    var r := Record(config, lines, today, stamp, diskOk);
    if diskOk && Evaluate(config, lines, today).enabled && Evaluate(config, lines, today).ok {
      AppendSums(lines, r.lines[|lines|], day);
    }
  }

  /** An entry shuts the governor exactly when its date cannot be read back: then every later check
      fails on the ledger and nothing is appended, whatever the day. */
  lemma ShutsGovernorIff(config: Config, lines: seq<Line>, today: string, stamp: RecordedAt,
      later: string, laterStamp: RecordedAt)
    requires Appended(Record(config, lines, today, stamp, true))
    ensures var r := Record(config, lines, today, stamp, true);
            && (Evaluate(config, r.lines, later).code == InvalidLedger <==> !stamp.On?)
            && (!stamp.On? ==> Record(config, r.lines, later, laterStamp, true).lines == r.lines)
  {
    RecordIsLast(config, lines, today, stamp);
    WithinBudgetIff(config, lines, today);
    var r := Record(config, lines, today, stamp, true);
    hide Evaluate, Record;
    AppendSums(lines, r.lines[|lines|], today);
    InvalidLedgerIff(config, r.lines, later, laterStamp);
  }

  lemma RecordIsLast(config: Config, lines: seq<Line>, today: string, stamp: RecordedAt)
    requires Appended(Record(config, lines, today, stamp, true))
    ensures Evaluate(config, lines, today).enabled && Evaluate(config, lines, today).ok
    ensures var after := Record(config, lines, today, stamp, true).lines;
            |after| == |lines| + 1 && after == lines + [after[|lines|]]
            && (LineReadable(after[|lines|]) <==> stamp.On?)
  {
    RecordAddsOneReserve(config, lines, today, stamp, true, today);
    hide Evaluate;
  }

  lemma InvalidLedgerIff(config: Config, lines: seq<Line>, today: string, stamp: RecordedAt)
    requires Governing(config)
    ensures Evaluate(config, lines, today).code == InvalidLedger <==> !Readable(lines)
    ensures !Readable(lines) ==> Record(config, lines, today, stamp, true).lines == lines
  {
  }

  // ---------------------------------------------------------------- caps over runs

  ghost predicate WithinCaps(config: Config, lines: seq<Line>) {
    Under(TotalCap(config), Total(lines)) && forall day :: Under(DailyCap(config), DaySum(lines, day))
  }

  /** One call keeps the total cap always, and keeps every daily cap exactly when the day the
      entry is dated with still had room, which is given when it is the day that was checked. */
  lemma RecordKeepsCapsIff(config: Config, lines: seq<Line>, today: string, stamp: RecordedAt)
    requires WithinCaps(config, lines) && Appended(Record(config, lines, today, stamp, true))
    ensures var after := Record(config, lines, today, stamp, true).lines;
            && Under(TotalCap(config), Total(after))
            && (WithinCaps(config, after) <==>
                 (stamp.On? ==> Under(DailyCap(config), DaySum(lines, stamp.day) + Reserve(config))))
            && (stamp == On(today) ==> WithinCaps(config, after))
  {
    hide Evaluate, Record, DailyCap, TotalCap, Reserve;
    var after := Record(config, lines, today, stamp, true).lines;
    CheckedDayHasRoom(config, lines, today, stamp);
    forall day ensures DaySum(after, day) == DaySum(lines, day) + (if stamp == On(day) then Reserve(config) else 0.0) {
      RecordAddsOneReserve(config, lines, today, stamp, true, day);
    }
    if stamp.On? {
      assert Under(DailyCap(config), DaySum(after, stamp.day)) <==>
             Under(DailyCap(config), DaySum(lines, stamp.day) + Reserve(config));
    }
  }

  lemma CheckedDayHasRoom(config: Config, lines: seq<Line>, today: string, stamp: RecordedAt)
    requires Appended(Record(config, lines, today, stamp, true))
    ensures Under(DailyCap(config), DaySum(lines, today) + Reserve(config))
    ensures Under(TotalCap(config), Total(Record(config, lines, today, stamp, true).lines))
  {
    RecordAddsOneReserve(config, lines, today, stamp, true, today);
    WithinBudgetIff(config, lines, today);
    hide Evaluate, Record;
  }

  /** A check just before midnight, stamped just after it, can break the next day's cap when
      that day already holds spend. */
  lemma MidnightCanBreakDailyCap() returns (config: Config, lines: seq<Line>, today: string, next: string)
    ensures WithinCaps(config, lines) && Appended(Record(config, lines, today, On(next), true))
    ensures !WithinCaps(config, Record(config, lines, today, On(next), true).lines)
  {
    config := Section(true, Num(1.0), Unset, Num(1.0), true);
    today, next := "2026-01-01", "2026-01-02";
    var spent := Row(1.0, On(next), RESERVE_SOURCE, next);
    lines := [spent];
    AppendSums([], spent, today);
    assert [] + [spent] == lines;
    forall day ensures DaySum(lines, day) == UsdOn(spent, day) {
      AppendSums([], spent, day);
    }
    assert today[9] != next[9];
    assert DaySum(lines, today) == 0.0 && DaySum(lines, next) == 1.0;
    assert AsFloat(config.dailyCap) == Some(1.0) && AsFloat(config.totalCap) == Some(0.0);
    WithinBudgetIff(config, lines, today);
    assert LineReadable(spent);
    RecordAddsOneReserve(config, lines, today, On(next), true, next);
    RecordKeepsCapsIff(config, lines, today, On(next));
  }

  /** One call of a sequential run: the days its two clock readings fell on. */
  datatype Call = Call(checkedOn: string, stampedOn: string, diskOk: bool)

  function RunCalls(config: Config, lines: seq<Line>, calls: seq<Call>): seq<Line>
    decreases |calls|
  {
    if calls == [] then lines
    else
      var c := calls[0];
      RunCalls(config, Record(config, lines, c.checkedOn, On(c.stampedOn), c.diskOk).lines, calls[1..])
  }

  function CountAppends(config: Config, lines: seq<Line>, calls: seq<Call>): nat
    decreases |calls|
  {
    if calls == [] then 0
    else
      var r := Record(config, lines, calls[0].checkedOn, On(calls[0].stampedOn), calls[0].diskOk);
      (if Appended(r) then 1 else 0) + CountAppends(config, r.lines, calls[1..])
  }

  /** Days (in ISO form, so ordered as text) never run backwards over the clock readings. */
  ghost predicate Chronological(now: string, calls: seq<Call>)
    decreases |calls|
  {
    calls != [] ==>
      && Leq(now, calls[0].checkedOn) && Leq(calls[0].checkedOn, calls[0].stampedOn)
      && Chronological(calls[0].stampedOn, calls[1..])
  }

  ghost predicate NothingAfter(lines: seq<Line>, now: string) {
    forall day :: !Leq(day, now) ==> DaySum(lines, day) == 0.0
  }

  lemma CallAddsNothingLater(config: Config, lines: seq<Line>, now: string, call: Call, day: string)
    requires NothingAfter(lines, now) && Leq(now, call.checkedOn) && Leq(call.checkedOn, call.stampedOn)
    requires !Leq(day, call.stampedOn)
    ensures DaySum(Record(config, lines, call.checkedOn, On(call.stampedOn), call.diskOk).lines, day) == 0.0
  {
    RecordAddsOneReserve(config, lines, call.checkedOn, On(call.stampedOn), call.diskOk, day);
    LeqTotal(call.stampedOn, call.stampedOn);
    LeqTransitive(now, call.checkedOn, call.stampedOn);
    if Leq(day, now) {
      LeqTransitive(day, now, call.stampedOn);
    }
  }

  /** The day stamped is the day checked, or it is still empty. */
  lemma StampedDayHasRoom(config: Config, lines: seq<Line>, now: string, call: Call)
    requires NothingAfter(lines, now) && Leq(now, call.checkedOn) && Leq(call.checkedOn, call.stampedOn)
    requires Evaluate(config, lines, call.checkedOn).enabled && Evaluate(config, lines, call.checkedOn).ok
    ensures Under(DailyCap(config), DaySum(lines, call.stampedOn) + Reserve(config))
  {
    WithinBudgetIff(config, lines, call.checkedOn);
    if call.stampedOn != call.checkedOn && Leq(call.stampedOn, now) {
      LeqTransitive(call.stampedOn, now, call.checkedOn);
      LeqAntisymmetric(call.stampedOn, call.checkedOn);
    }
  }

  lemma OneCallKeepsCaps(config: Config, lines: seq<Line>, now: string, call: Call)
    requires WithinCaps(config, lines) && NothingAfter(lines, now)
    requires Leq(now, call.checkedOn) && Leq(call.checkedOn, call.stampedOn)
    ensures var after := Record(config, lines, call.checkedOn, On(call.stampedOn), call.diskOk).lines;
            WithinCaps(config, after) && NothingAfter(after, call.stampedOn)
  {
    hide Evaluate, Record, Leq, DailyCap, TotalCap, Reserve;
    var r := Record(config, lines, call.checkedOn, On(call.stampedOn), call.diskOk);
    RecordAddsOneReserve(config, lines, call.checkedOn, On(call.stampedOn), call.diskOk, now);
    forall day | !Leq(day, call.stampedOn) ensures DaySum(r.lines, day) == 0.0 {
      CallAddsNothingLater(config, lines, now, call, day);
    }
    if call.diskOk && Evaluate(config, lines, call.checkedOn).enabled && Evaluate(config, lines, call.checkedOn).ok {
      StampedDayHasRoom(config, lines, now, call);
      RecordKeepsCapsIff(config, lines, call.checkedOn, On(call.stampedOn));
    }
  }

  /** Any sequential run of recordings under a clock that does not run backwards keeps the
      total and every single day within each positive cap, midnights included. */
  lemma {:induction false} SequentialRunKeepsCaps(config: Config, lines: seq<Line>, now: string, calls: seq<Call>)
    requires WithinCaps(config, lines) && NothingAfter(lines, now) && Chronological(now, calls)
    ensures WithinCaps(config, RunCalls(config, lines, calls))
    decreases |calls|
  {
    if calls != [] {
      OneCallKeepsCaps(config, lines, now, calls[0]);
      var c := calls[0];
      SequentialRunKeepsCaps(config, Record(config, lines, c.checkedOn, On(c.stampedOn), c.diskOk).lines,
                             calls[0].stampedOn, calls[1..]);
    }
  }

  /** `n` times `amount`. */
  function Times(n: nat, amount: real): real {
    if n == 0 then 0.0 else Times(n - 1, amount) + amount
  }

  lemma {:induction false} TimesMonotone(m: nat, n: nat, amount: real)
    requires m <= n && amount >= 0.0
    ensures Times(m, amount) <= Times(n, amount)
  {
    if m < n { TimesMonotone(m, n - 1, amount); }
  }

  /** Over a run the ledger grows by one reserve per success and by nothing else. */
  lemma {:induction false} RunSpendsReservePerSuccess(config: Config, lines: seq<Line>, calls: seq<Call>)
    ensures Total(RunCalls(config, lines, calls))
            == Total(lines) + Times(CountAppends(config, lines, calls), Reserve(config))
    decreases |calls|
  {
    if calls != [] {
      var c := calls[0];
      var r := Record(config, lines, c.checkedOn, On(c.stampedOn), c.diskOk);
      RecordAddsOneReserve(config, lines, c.checkedOn, On(c.stampedOn), c.diskOk, c.checkedOn);
      RunSpendsReservePerSuccess(config, r.lines, calls[1..]);
    }
  }

  // ---------------------------------------------------------------- interleaved writers

  type Pid = nat

  /** Writers on one ledger: those between their check and their append, and the clock's day. */
  datatype Shared = Shared(lines: seq<Line>, writers: set<Pid>, passed: set<Pid>, today: string)

  function ReserveRow(config: Config, day: string): Line { Row(Reserve(config), On(day), RESERVE_SOURCE, day) }

  ghost predicate Checks(config: Config, s: Shared, s': Shared, p: Pid) {
    && p in s.writers && p !in s.passed
    && Evaluate(config, s.lines, s.today).enabled && Evaluate(config, s.lines, s.today).ok
    && s' == s.(passed := s.passed + {p})
  }

  /** The entry is dated by a second look at the clock. */
  ghost predicate Appends(config: Config, s: Shared, s': Shared, p: Pid) {
    p in s.passed && s' == s.(lines := s.lines + [ReserveRow(config, s.today)], passed := s.passed - {p})
  }

  /** The write fails or the writer dies. */
  ghost predicate Abandons(s: Shared, s': Shared, p: Pid) {
    p in s.passed && s' == s.(passed := s.passed - {p})
  }

  ghost predicate DayPasses(s: Shared, s': Shared) {
    Leq(s.today, s'.today) && s' == s.(today := s'.today)
  }

  ghost predicate SharedNext(config: Config, s: Shared, s': Shared) {
    DayPasses(s, s') || exists p :: Checks(config, s, s', p) || Appends(config, s, s', p) || Abandons(s, s', p)
  }

  ghost predicate SharedRun(config: Config, run: seq<Shared>) {
    && |run| > 0 && run[0].passed == {} && run[0].writers != {}
    && WithinCaps(config, run[0].lines)
    && forall i :: 0 < i < |run| ==> SharedNext(config, run[i - 1], run[i])
  }

  /** A cap, if switched on, is overshot by at most `extra` amounts. */
  ghost predicate Within(cap: real, spent: real, extra: nat, amount: real) {
    cap > 0.0 ==> spent <= cap + Times(extra, amount)
  }

  ghost predicate WritersInv(s: Shared) {
    s.passed <= s.writers && |s.passed| <= |s.writers| && |s.writers| >= 1
  }

  /** What is spent plus what is promised overshoots the total cap by at most a reserve per other writer. */
  ghost predicate TotalInv(config: Config, s: Shared)
    requires WritersInv(s)
  {
    Within(TotalCap(config), Total(s.lines) + Times(|s.passed|, Reserve(config)), |s.writers| - 1, Reserve(config))
  }

  /** No day is overshot by more than `extra` reserves, and from today on not even with what is
      promised: whoever passed a check may yet append on any day to come. */
  ghost predicate DayInv(config: Config, s: Shared, extra: nat, day: string) {
    && Within(DailyCap(config), DaySum(s.lines, day), extra, Reserve(config))
    && (Leq(s.today, day) ==>
          Within(DailyCap(config), DaySum(s.lines, day) + Times(|s.passed|, Reserve(config)), extra, Reserve(config)))
    && (!Leq(day, s.today) ==> Under(DailyCap(config), DaySum(s.lines, day)))
  }

  /** One reserve per other writer is slack enough if nothing is dated later than today, and one per
      writer in any case. */
  ghost predicate Slack(s: Shared, extra: nat) {
    extra >= |s.writers| || (extra + 1 == |s.writers| && NothingAfter(s.lines, s.today))
  }

  ghost predicate SharedInv(config: Config, s: Shared, extra: nat) {
    WritersInv(s) && TotalInv(config, s) && Slack(s, extra) && forall day :: DayInv(config, s, extra, day)
  }

  lemma TimesMore(n: nat, amount: real)
    ensures Times(n + 1, amount) == Times(n, amount) + amount
  {
  }

  lemma SubsetSize(a: set<Pid>, b: set<Pid>)
    requires a <= b
    ensures |a| <= |b|
  {
    assert b == a + (b - a);
  }

  lemma CheckKeepsWriters(config: Config, s: Shared, s': Shared, p: Pid)
    requires WritersInv(s) && Checks(config, s, s', p)
    ensures WritersInv(s') && |s'.passed| == |s.passed| + 1 && |s.passed| + 1 <= |s.writers|
  {
    SubsetSize(s'.passed, s'.writers);
  }

  lemma CheckKeepsTotal(config: Config, s: Shared, s': Shared, p: Pid)
    requires WritersInv(s) && Checks(config, s, s', p)
    ensures WritersInv(s') && TotalInv(config, s')
  {
    CheckKeepsWriters(config, s, s', p);
    WithinBudgetIff(config, s.lines, s.today);
    TimesMore(|s.passed|, Reserve(config));
    TimesMonotone(|s.passed|, |s.writers| - 1, Reserve(config));
  }

  lemma CheckKeepsDay(config: Config, s: Shared, s': Shared, p: Pid, extra: nat, day: string)
    requires WritersInv(s) && Slack(s, extra) && DayInv(config, s, extra, day) && Checks(config, s, s', p)
    ensures DayInv(config, s', extra, day)
  {
    hide Evaluate, Slack, Leq, DailyCap, Reserve;
    var reserve := Reserve(config);
    CheckKeepsWriters(config, s, s', p);
    CheckFits(config, s, s', p);
    SlackMeans(s, extra);
    TimesMore(|s.passed|, reserve);
    TimesMonotone(|s.passed|, extra, reserve);
    assert DaySum(s'.lines, day) == DaySum(s.lines, day) && s'.today == s.today;
    if Leq(s.today, day) {
      if Leq(day, s.today) {
        LeqAntisymmetric(day, s.today);
      } else if extra >= |s.writers| {
        TimesMonotone(|s.passed| + 1, extra, reserve);
        assert Under(DailyCap(config), DaySum(s.lines, day));
      } else {
        assert DaySum(s.lines, day) == 0.0;
      }
    }
  }

  lemma SlackMeans(s: Shared, extra: nat)
    requires Slack(s, extra) && WritersInv(s)
    ensures extra >= |s.writers| - 1
    ensures extra >= |s.writers| || forall day :: !Leq(day, s.today) ==> DaySum(s.lines, day) == 0.0
  {
  }

  lemma CheckFits(config: Config, s: Shared, s': Shared, p: Pid)
    requires Checks(config, s, s', p)
    ensures Under(DailyCap(config), DaySum(s.lines, s.today) + Reserve(config))
            && Under(DailyCap(config), Reserve(config))
    ensures Reserve(config) > 0.0
  {
    WithinBudgetIff(config, s.lines, s.today);
  }

  lemma AppendFacts(config: Config, s: Shared, s': Shared, p: Pid, day: string)
    requires Appends(config, s, s', p)
    ensures |s.passed| == |s'.passed| + 1
            && Times(|s.passed|, Reserve(config)) == Times(|s'.passed|, Reserve(config)) + Reserve(config)
    ensures Total(s'.lines) == Total(s.lines) + Reserve(config)
    ensures DaySum(s'.lines, day) == DaySum(s.lines, day) + if day == s.today then Reserve(config) else 0.0
  {
    AppendSums(s.lines, ReserveRow(config, s.today), day);
    TimesMore(|s'.passed|, Reserve(config));
  }

  /** An append turns a promised reserve into a spent one. */
  lemma AppendKeepsDay(config: Config, s: Shared, s': Shared, p: Pid, extra: nat, day: string)
    requires WritersInv(s) && DayInv(config, s, extra, day) && Appends(config, s, s', p)
    ensures DayInv(config, s', extra, day)
  {
    hide Leq;
    AppendFacts(config, s, s', p, day);
    TimesMonotone(0, |s'.passed|, Reserve(config));
    assert Leq(s.today, s.today) by { LeqTotal(s.today, s.today); }
  }

  lemma AppendKeepsRest(config: Config, s: Shared, s': Shared, p: Pid, extra: nat)
    requires WritersInv(s) && TotalInv(config, s) && Slack(s, extra) && Appends(config, s, s', p)
    ensures WritersInv(s') && TotalInv(config, s') && Slack(s', extra)
  {
    AppendFacts(config, s, s', p, s.today);
    LeqTotal(s.today, s.today);
    forall day ensures !Leq(day, s.today) ==> DaySum(s'.lines, day) == DaySum(s.lines, day) {
      AppendFacts(config, s, s', p, day);
    }
  }

  lemma AbandonKeepsInv(config: Config, s: Shared, s': Shared, p: Pid, extra: nat)
    requires SharedInv(config, s, extra) && Abandons(s, s', p)
    ensures SharedInv(config, s', extra)
  {
    hide Leq;
    assert |s.passed| == |s'.passed| + 1;
    TimesMonotone(|s'.passed|, |s.passed|, Reserve(config));
    forall day ensures DayInv(config, s', extra, day) {
      assert DayInv(config, s, extra, day);
    }
  }

  lemma DayKeepsInv(config: Config, s: Shared, s': Shared, extra: nat)
    requires SharedInv(config, s, extra) && DayPasses(s, s')
    ensures SharedInv(config, s', extra)
  {
    hide Leq;
    forall day ensures DayInv(config, s', extra, day) && (!Leq(day, s'.today) ==> !Leq(day, s.today)) {
      assert DayInv(config, s, extra, day);
      if Leq(s'.today, day) { LeqTransitive(s.today, s'.today, day); }
      if Leq(day, s.today) { LeqTransitive(day, s.today, s'.today); }
    }
  }

  lemma StepKeepsInv(config: Config, s: Shared, s': Shared, extra: nat)
    requires SharedInv(config, s, extra) && SharedNext(config, s, s')
    ensures SharedInv(config, s', extra)
  {
    hide DayInv, TotalInv, Slack, Checks, Appends, Abandons, DayPasses;
    if DayPasses(s, s') {
      DayKeepsInv(config, s, s', extra);
    } else {
      var p :| Checks(config, s, s', p) || Appends(config, s, s', p) || Abandons(s, s', p);
      if Checks(config, s, s', p) {
        CheckKeepsTotal(config, s, s', p);
        CheckKeepsSlack(config, s, s', p, extra);
        forall day ensures DayInv(config, s', extra, day) { CheckKeepsDay(config, s, s', p, extra, day); }
      } else if Appends(config, s, s', p) {
        AppendKeepsRest(config, s, s', p, extra);
        forall day ensures DayInv(config, s', extra, day) { AppendKeepsDay(config, s, s', p, extra, day); }
      } else {
        AbandonKeepsInv(config, s, s', p, extra);
      }
    }
  }

  lemma CheckKeepsSlack(config: Config, s: Shared, s': Shared, p: Pid, extra: nat)
    requires Slack(s, extra) && Checks(config, s, s', p)
    ensures Slack(s', extra)
  {
  }

  lemma StartHasInv(config: Config, s: Shared, extra: nat)
    requires s.passed == {} && s.writers != {} && WithinCaps(config, s.lines) && Slack(s, extra)
    ensures SharedInv(config, s, extra)
  {
    hide Leq;
    TimesMonotone(0, |s.writers| - 1, Reserve(config));
    TimesMonotone(0, extra, Reserve(config));
    forall day ensures DayInv(config, s, extra, day) {
      assert Under(DailyCap(config), DaySum(s.lines, day));
    }
  }

  lemma {:induction false} SharedRunKeepsInv(config: Config, run: seq<Shared>, i: nat, extra: nat)
    requires SharedRun(config, run) && i < |run| && Slack(run[0], extra)
    ensures SharedInv(config, run[i], extra) && run[i].writers == run[0].writers
  {
    hide SharedInv, Slack, WithinCaps;
    if i == 0 {
      StartHasInv(config, run[0], extra);
    } else {
      SharedRunKeepsInv(config, run, i - 1, extra);
      assert SharedNext(config, run[i - 1], run[i]);
      StepKeepsInv(config, run[i - 1], run[i], extra);
    }
  }

  /** With N writers checking and appending in any order, each by its own look at the clock, the total
      never exceeds its positive cap by more than N - 1 reserves. Neither does any day's sum, if the
      ledger held nothing dated later than the start; if it did, no day's sum by more than N. */
  lemma InterleavedOvershootBounded(config: Config, run: seq<Shared>, i: nat, day: string)
    requires SharedRun(config, run) && i < |run|
    ensures var n, reserve := |run[0].writers|, Reserve(config);
            && Within(TotalCap(config), Total(run[i].lines), n - 1, reserve)
            && (NothingAfter(run[0].lines, run[0].today) ==>
                    Within(DailyCap(config), DaySum(run[i].lines, day), n - 1, reserve))
            && Within(DailyCap(config), DaySum(run[i].lines, day), n, reserve)
  {
    hide Leq, Slack, SharedRun;
    var n := |run[0].writers|;
    assert Slack(run[0], n) by { AnySlack(run[0]); }
    SharedRunKeepsInv(config, run, i, n);
    assert DayInv(config, run[i], n, day);
    TimesMonotone(0, |run[i].passed|, Reserve(config));
    if NothingAfter(run[0].lines, run[0].today) {
      assert Slack(run[0], n - 1) by { NothingAfterSlack(run[0]); }
      SharedRunKeepsInv(config, run, i, n - 1);
      assert DayInv(config, run[i], n - 1, day);
    }
  }

  lemma AnySlack(s: Shared)
    ensures Slack(s, |s.writers|)
  {
  }

  lemma NothingAfterSlack(s: Shared)
    requires NothingAfter(s.lines, s.today) && |s.writers| >= 1
    ensures Slack(s, |s.writers| - 1)
  {
  }

  // ---------------------------------------------------------------- the bounds are reached

  function Pids(n: nat): (s: set<Pid>)
    ensures |s| == n && forall p :: p in s <==> 0 <= p < n
  {
    if n == 0 then {} else Pids(n - 1) + {n - 1}
  }

  ghost predicate SharedReaches(config: Config, s: Shared, t: Shared) {
    exists run :: SharedRun(config, run) && run[0] == s && run[|run| - 1] == t
  }

  lemma SharedReach(config: Config, s: Shared, t: Shared, u: Shared)
    requires SharedReaches(config, s, t) && SharedNext(config, t, u)
    ensures SharedReaches(config, s, u)
  {
    hide SharedNext, WithinCaps;
    var run :| SharedRun(config, run) && run[0] == s && run[|run| - 1] == t;
    var longer := run + [u];
    assert SharedRun(config, longer);
  }

  lemma StartReaches(config: Config, s: Shared)
    requires s.passed == {} && s.writers != {} && WithinCaps(config, s.lines)
    ensures SharedReaches(config, s, s)
  {
    assert SharedRun(config, [s]) && [s][0] == s;
  }

  lemma PidsGrow(n: nat, k: nat)
    requires 0 < k <= n
    ensures k - 1 in Pids(n) && k - 1 !in Pids(k - 1) && Pids(k) == Pids(k - 1) + {k - 1}
            && Pids(k - 1) == Pids(k) - {k - 1}
  {
  }

  lemma {:induction false} AllCanCheck(config: Config, s: Shared, n: nat, k: nat)
    requires SharedReaches(config, s, s) && s.writers == Pids(n) && s.passed == {} && k <= n
    requires Evaluate(config, s.lines, s.today).enabled && Evaluate(config, s.lines, s.today).ok
    ensures SharedReaches(config, s, s.(passed := Pids(k)))
  {
    hide SharedReaches, Evaluate, Pids;
    if k == 0 {
      assert s.(passed := Pids(0)) == s;
    } else {
      AllCanCheck(config, s, n, k - 1);
      PidsGrow(n, k);
      var before, after := s.(passed := Pids(k - 1)), s.(passed := Pids(k));
      assert Checks(config, before, after, k - 1);
      SharedReach(config, s, before, after);
    }
  }

  lemma {:induction false} AllCanAppend(config: Config, s: Shared, t: Shared, k: nat) returns (u: Shared)
    requires SharedReaches(config, s, t) && t.passed == Pids(k)
    ensures SharedReaches(config, s, u) && u.passed == {}
    ensures Total(u.lines) == Total(t.lines) + Times(k, Reserve(config))
    ensures DaySum(u.lines, t.today) == DaySum(t.lines, t.today) + Times(k, Reserve(config))
    decreases k
  {
    hide SharedReaches, Pids;
    if k == 0 {
      u := t;
    } else {
      PidsGrow(k, k);
      var v := t.(lines := t.lines + [ReserveRow(config, t.today)], passed := t.passed - {k - 1});
      assert Appends(config, t, v, k - 1);
      SharedReach(config, s, t, v);
      AppendFacts(config, t, v, k - 1, t.today);
      TimesMore(k - 1, Reserve(config));
      u := AllCanAppend(config, s, v, k - 1);
    }
  }

  lemma ReserveIsPositive(config: Config)
    requires Governing(config)
    ensures Reserve(config) > 0.0
  {
  }

  /** A ledger of one spent amount, dated `day`. */
  function Spent(usd: real, day: string): seq<Line> { [Row(usd, On(day), RESERVE_SOURCE, day)] }

  lemma SpentSums(usd: real, day: string, other: string)
    requires usd >= 0.0
    ensures Total(Spent(usd, day)) == usd && DaySum(Spent(usd, day), other) == (if other == day then usd else 0.0)
    ensures Readable(Spent(usd, day))
  {
    AppendSums([], Spent(usd, day)[0], other);
    assert [] + [Spent(usd, day)[0]] == Spent(usd, day);
  }

  /** `cap` is the tightest of the caps switched on. */
  ghost predicate Tightest(config: Config, cap: real) {
    && (cap == DailyCap(config) || cap == TotalCap(config)) && cap > 0.0
    && Under(DailyCap(config), cap) && Under(TotalCap(config), cap)
  }

  /** The bound of N - 1 reserves is reached, for every number of writers and every configuration whose
      tightest cap has room for one reserve: all check first, then all append, on one day. */
  lemma OvershootIsReached(config: Config, cap: real, n: nat) returns (start: Shared, end: Shared)
    requires Governing(config) && Tightest(config, cap) && Reserve(config) <= cap && n >= 1
    ensures SharedReaches(config, start, end) && |start.writers| == n && NothingAfter(start.lines, start.today)
    ensures Total(end.lines) == DaySum(end.lines, start.today) == cap + Times(n - 1, Reserve(config))
  {
    start := Shared(Spent(cap - Reserve(config), "2026-01-01"), Pids(n), {}, "2026-01-01");
    end := Overrun(config, cap, n, start);
  }

  lemma Overrun(config: Config, cap: real, n: nat, start: Shared) returns (end: Shared)
    requires Governing(config) && Tightest(config, cap) && Reserve(config) <= cap && n >= 1
    requires start.lines == Spent(cap - Reserve(config), start.today) && start.writers == Pids(n) && start.passed == {}
    ensures SharedReaches(config, start, end) && NothingAfter(start.lines, start.today)
    ensures Total(end.lines) == DaySum(end.lines, start.today) == cap + Times(n - 1, Reserve(config))
  {
    ReserveIsPositive(config);
    hide Governing, Pids, DailyCap, TotalCap, Spent, SharedReaches, Leq;
    var today, usd := start.today, cap - Reserve(config);
    LeqTotal(today, today);
    forall day
      ensures Under(DailyCap(config), DaySum(start.lines, day))
      ensures !Leq(day, today) ==> DaySum(start.lines, day) == 0.0
    {
      SpentSums(usd, today, day);
    }
    SpentSums(usd, today, today);
    assert WithinCaps(config, start.lines);
    WithinBudgetIff(config, start.lines, today);
    assert 0 in start.writers;
    StartReaches(config, start);
    AllCanCheck(config, start, n, n);
    end := AllCanAppend(config, start, start.(passed := Pids(n)), n);
    TimesMore(n - 1, Reserve(config));
  }

  /** With spend already dated later than the clock, the bound of N reserves on a day is reached too:
      all check before midnight and append after it, on a day that was full. */
  lemma FutureOvershootIsReached(config: Config, n: nat) returns (start: Shared, end: Shared, day: string)
    requires Governing(config) && DailyCap(config) > 0.0 && Reserve(config) <= DailyCap(config) && n >= 1
    requires Under(TotalCap(config), DailyCap(config) + Reserve(config))
    ensures SharedReaches(config, start, end) && |start.writers| == n
    ensures DaySum(end.lines, day) == DailyCap(config) + Times(n, Reserve(config))
  {
    hide Governing, DailyCap, TotalCap, Reserve, Under, SharedReaches, Leq, Pids, Spent;
    var today;
    today, day := TwoDays();
    start := Shared(Spent(DailyCap(config), day), Pids(n), {}, today);
    end := OverrunOn(config, n, start, day);
  }

  lemma TwoDays() returns (today: string, day: string)
    ensures day != today && Leq(today, day)
  {
    today, day := "2026-01-01", "2026-01-02";
    assert today[9] != day[9];
    LeqAfterPrefix("2026-01-0", "1", "2");
    assert "2026-01-0" + "1" == today && "2026-01-0" + "2" == day;
  }

  lemma OverrunOn(config: Config, n: nat, start: Shared, day: string) returns (end: Shared)
    requires Governing(config) && DailyCap(config) > 0.0 && Reserve(config) <= DailyCap(config) && n >= 1
    requires Under(TotalCap(config), DailyCap(config) + Reserve(config))
    requires start.lines == Spent(DailyCap(config), day) && start.writers == Pids(n) && start.passed == {}
    requires day != start.today && Leq(start.today, day)
    ensures SharedReaches(config, start, end) && DaySum(end.lines, day) == DailyCap(config) + Times(n, Reserve(config))
  {
    hide Governing, Pids, DailyCap, TotalCap, Spent, SharedReaches, Leq;
    forall other ensures Under(DailyCap(config), DaySum(start.lines, other)) {
      SpentSums(DailyCap(config), day, other);
    }
    SpentSums(DailyCap(config), day, start.today);
    SpentSums(DailyCap(config), day, day);
    ReserveIsPositive(config);
    assert WithinCaps(config, start.lines);
    WithinBudgetIff(config, start.lines, start.today);
    assert 0 in start.writers;
    StartReaches(config, start);
    AllCanCheck(config, start, n, n);
    var checked := start.(passed := Pids(n));
    var later := checked.(today := day);
    assert DayPasses(checked, later);
    SharedReach(config, start, checked, later);
    end := AllCanAppend(config, start, later, n);
  }

  lemma {:induction false} LeqAfterPrefix(p: string, a: string, b: string)
    requires Leq(a, b)
    ensures Leq(p + a, p + b)
  {
    if p == "" {
      assert p + a == a && p + b == b;
    } else {
      LeqAfterPrefix(p[1..], a, b);
      assert (p + a)[1..] == p[1..] + a && (p + b)[1..] == p[1..] + b;
    }
  }

  // ---------------------------------------------------------------- the ledger file

  /** The ledger file, only ever appended to. */
  class LedgerFile {
    const config: Config
    var lines: seq<Line>

    constructor (config: Config, lines: seq<Line>)
      ensures this.config == config && this.lines == lines
    {
      this.config := config;
      this.lines := lines;
    }

    method EvaluateSpendGovernor(today: string) returns (v: Verdict)
      ensures v == Evaluate(config, lines, today)
    {
      if config.ConfigMissing? {
        return Verdict(true, false, MissingConfig, 0.0, 0.0, 0.0);
      }
      if config.ConfigUnreadable? {
        return Verdict(false, true, InvalidConfig, 0.0, 0.0, 0.0);
      }
      if config.NoSection? || !config.enabled {
        return Verdict(true, false, Disabled, 0.0, 0.0, 0.0);
      }
      var dailyCap, totalCap, reserve := AsFloat(config.dailyCap), AsFloat(config.totalCap), AsFloat(config.reserve);
      if dailyCap.None? || totalCap.None? || reserve.None? || !config.ledgerPathValid {
        return Verdict(false, true, InvalidConfig, 0.0, 0.0, 0.0);
      }
      if dailyCap.value <= 0.0 && totalCap.value <= 0.0 {
        return Verdict(false, true, NoCap, 0.0, 0.0, 0.0);
      }
      if reserve.value <= 0.0 {
        return Verdict(false, true, NoReserve, 0.0, 0.0, reserve.value);
      }
      var sums := ReadSpendLedger(lines, today);
      if sums.None? {
        return Verdict(false, true, InvalidLedger, 0.0, 0.0, reserve.value);
      }
      var (daily, total) := sums.value;
      if dailyCap.value > 0.0 && daily + reserve.value > dailyCap.value {
        return Verdict(false, true, OverDailyCap, daily, total, reserve.value);
      }
      if totalCap.value > 0.0 && total + reserve.value > totalCap.value {
        return Verdict(false, true, OverTotalCap, daily, total, reserve.value);
      }
      v := Verdict(true, true, WithinBudget, daily, total, reserve.value);
    }

    method RecordEvolveChildSpend(today: string, stamp: RecordedAt, diskOk: bool) returns (result: WriteResult)
      modifies this`lines
      ensures Recorded(lines, result) == Record(config, old(lines), today, stamp, diskOk)
      ensures old(lines) <= lines
    {
      var v := EvaluateSpendGovernor(today);
      if !v.enabled {
        return WriteResult(true, false, v.code, 0.0);
      }
      if !v.ok {
        return WriteResult(false, true, v.code, v.reserved);
      }
      if !diskOk {
        return WriteResult(false, true, WriteFailed, v.reserved);
      }
      lines := lines + [Row(v.reserved, stamp, RESERVE_SOURCE, if stamp.On? then stamp.day else today)];
      result := WriteResult(true, true, LedgerAppended, v.reserved);
    }
  }
}
