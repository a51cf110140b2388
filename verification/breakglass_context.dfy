/** `scripts/breakglass_context.py`: cutting gate output into the blocks of failed gates,
    building the decision context, and its bounded JSON encoding. The regular expressions
    and the look-up of model-written guidance are parameters. */
module BreakglassContext {
  import opened Strings
  import opened Json

  const MAX_CONTEXT_CHARS: nat := 8000
  const MAX_ISSUES: nat := 5
  const MAX_EVIDENCE_LINES: nat := 4

  datatype Status = Failed | Passed | Skipped
  datatype Header = Header(name: Text, status: Status)

  /** What the regular expressions decide about a line. */
  datatype Rules = Rules(
    header: Text -> Option<Header>,
    clean: Text -> Text,
    noise: Text -> bool,
    evidence: Text -> bool,
    safetyNote: Text -> bool,
    fold: Text -> Text)

  /** White space as `str.strip` and `str.rstrip` see it. */
  predicate IsSpaceCode(c: Code) {
    9 <= c <= 13 || 28 <= c <= 32 || c == 0x85 || c == 0xA0 || c == 0x1680 || 0x2000 <= c <= 0x200A
    || c == 0x2028 || c == 0x2029 || c == 0x202F || c == 0x205F || c == 0x3000
  }

  function StripText(t: Text): Text { Trim(t, IsSpaceCode) }

  // ---------------------------------------------------------------- failed gate blocks

  datatype Block = Block(gate: Text, lines: seq<Text>)

  /** A line as the segmenter sees it: a gate header with its cleaned name, or plain text. */
  datatype Item = Head(gate: Text, failed: bool) | Body(line: Text)

  function Classify(rules: Rules, raw: Text): Item {
    var line := TrimRight(raw, IsSpaceCode);
    match rules.header(line)
    case Some(h) => Head(rules.clean(h.name), h.status.Failed?)
    case None => Body(line)
  }

  function Items(rules: Rules, raw: seq<Text>): (items: seq<Item>)
    ensures |items| == |raw| && forall i :: 0 <= i < |raw| ==> items[i] == Classify(rules, raw[i])
  {
    seq(|raw|, i requires 0 <= i < |raw| => Classify(rules, raw[i]))
  }

  /** A Failed header with a non-empty name: one that starts a reported block. */
  predicate Reports(item: Item) { item.Head? && item.failed && item.gate != [] }

  /** The reporting headers among the first `n` lines, in order. */
  function Reporting(items: seq<Item>, n: nat): (at: seq<nat>)
    requires n <= |items|
    ensures forall k :: 0 <= k < |at| ==> at[k] < n && Reports(items[at[k]])
    ensures forall i :: 0 <= i < n && Reports(items[i]) ==> i in at
    ensures forall j, k :: 0 <= j < k < |at| ==> at[j] < at[k]
  {
    if n == 0 then []
    else if Reports(items[n - 1]) then Reporting(items, n - 1) + [n - 1]
    else Reporting(items, n - 1)
  }

  /** Where the block of the header at `h` ends: the next header of any status, or `n`. */
  function EndOf(items: seq<Item>, h: nat, n: nat): (e: nat)
    requires h < n <= |items|
    ensures h < e <= n
    ensures e < n ==> items[e].Head?
    ensures forall i :: h < i < e ==> items[i].Body?
  {
    if n == h + 1 then n
    else
      var e := EndOf(items, h, n - 1);
      if e < n - 1 || items[n - 1].Head? then e else n
  }

  function LinesOf(items: seq<Item>, a: nat, b: nat): seq<Text>
    requires a <= b <= |items| && forall i :: a <= i < b ==> items[i].Body?
  {
    seq(b - a, k requires 0 <= k < b - a => items[a + k].line)
  }

  function BlockAt(items: seq<Item>, h: nat, n: nat): Block
    requires h < n <= |items| && items[h].Head?
  {
    Block(items[h].gate, LinesOf(items, h + 1, EndOf(items, h, n)))
  }

  /** `blocks` pairs each reporting header among the first `n` lines, in order, with exactly
      the lines strictly between it and the next header. */
  ghost predicate IsSegmentation(blocks: seq<Block>, items: seq<Item>, n: nat)
    requires n <= |items|
  {
    var at := Reporting(items, n);
    |blocks| == |at| && forall k :: 0 <= k < |at| ==> blocks[k] == BlockAt(items, at[k], n)
  }

  /** The scanning variables describe the last header so far, at `last` (none if negative). */
  ghost predicate Current(items: seq<Item>, i: nat, last: int, gate: Text, lines: seq<Text>, failed: bool)
    requires i <= |items|
  {
    if last < 0 then !failed && forall k :: 0 <= k < i ==> items[k].Body?
    else
      && last < i && items[last] == Head(gate, failed)
      && (forall k :: last < k < i ==> items[k].Body?)
      && (failed ==> lines == LinesOf(items, last + 1, i))
  }

  function Shown(blocks: seq<Block>, gate: Text, lines: seq<Text>, failed: bool): seq<Block> {
    if failed && gate != [] then blocks + [Block(gate, lines)] else blocks
  }

  lemma EndStaysAtHeader(items: seq<Item>, h: nat, i: nat)
    requires h < i < |items| && items[i].Head?
    ensures EndOf(items, h, i + 1) == EndOf(items, h, i)
  {
  }

  lemma HeaderStarts(items: seq<Item>, i: nat, shown: seq<Block>)
    requires i < |items| && items[i].Head? && IsSegmentation(shown, items, i)
    ensures IsSegmentation(Shown(shown, items[i].gate, [], items[i].failed), items, i + 1)
  {
    var next := Shown(shown, items[i].gate, [], items[i].failed);
    var before, at := Reporting(items, i), Reporting(items, i + 1);
    assert at == if Reports(items[i]) then before + [i] else before;
    assert BlockAt(items, i, i + 1).lines == [];
    hide Reporting;
    forall k | 0 <= k < |before| ensures next[k] == BlockAt(items, before[k], i + 1) {
      EndStaysAtHeader(items, before[k], i);
    }
  }

  /** A plain line goes to the last header's block, and to no other. */
  lemma LineEnds(items: seq<Item>, i: nat, last: nat, h: nat)
    requires h <= last < i < |items| && items[h].Head? && items[last].Head?
    requires items[i].Body? && forall k :: last < k < i ==> items[k].Body?
    ensures h < last ==> BlockAt(items, h, i + 1) == BlockAt(items, h, i)
    ensures h == last ==> BlockAt(items, h, i + 1).lines == LinesOf(items, last + 1, i) + [items[i].line]
  {
    if h < last {
      assert EndOf(items, h, i) <= last;
    } else {
      assert EndOf(items, h, i) == i && EndOf(items, h, i + 1) == i + 1;
    }
  }

  lemma ReportsUpToLast(items: seq<Item>, i: nat, last: int)
    requires -1 <= last < i <= |items| && forall k :: last < k < i ==> items[k].Body?
    ensures forall j :: 0 <= j < |Reporting(items, i)| ==> Reporting(items, i)[j] <= last
  {
    var at := Reporting(items, i);
    forall j | 0 <= j < |at| ensures at[j] <= last {
      assert Reports(items[at[j]]);
    }
  }

  lemma LineGoesOn(items: seq<Item>, i: nat, last: nat, gate: Text, lines: seq<Text>, blocks: seq<Block>)
    requires i < |items| && items[i].Body? && last < i && items[last] == Head(gate, true) && gate != []
    requires (forall k :: last < k < i ==> items[k].Body?) && lines == LinesOf(items, last + 1, i)
    requires IsSegmentation(blocks + [Block(gate, lines)], items, i)
    ensures IsSegmentation(blocks + [Block(gate, lines + [items[i].line])], items, i + 1)
  {
    var at, after := Reporting(items, i), blocks + [Block(gate, lines + [items[i].line])];
    assert Reporting(items, i + 1) == at && last in at;
    ReportsUpToLast(items, i, last);
    assert at[|at| - 1] == last;
    hide Reporting;
    forall k | 0 <= k < |at| ensures after[k] == BlockAt(items, at[k], i + 1) {
      assert (blocks + [Block(gate, lines)])[k] == BlockAt(items, at[k], i);
      LineEnds(items, i, last, at[k]);
    }
  }

  lemma LineElsewhere(items: seq<Item>, i: nat, last: int, blocks: seq<Block>)
    requires i < |items| && items[i].Body? && -1 <= last < i
    requires last >= 0 ==> items[last].Head? && !Reports(items[last])
    requires (forall k :: last < k < i ==> items[k].Body?) && IsSegmentation(blocks, items, i)
    ensures IsSegmentation(blocks, items, i + 1)
  {
    var at := Reporting(items, i);
    assert Reporting(items, i + 1) == at;
    ReportsUpToLast(items, i, last);
    hide Reporting;
    forall k | 0 <= k < |at| ensures blocks[k] == BlockAt(items, at[k], i + 1) {
      assert at[k] < last by { assert Reports(items[at[k]]); }
      LineEnds(items, i, last, at[k]);
    }
  }

  /** What holds of the scan before line `i`. */
  ghost predicate Scanned(items: seq<Item>, i: nat, last: int, gate: Text, lines: seq<Text>, failed: bool,
      blocks: seq<Block>)
    requires -1 <= last < i <= |items| || (i == 0 && last == -1)
  {
    Current(items, i, last, gate, lines, failed) && IsSegmentation(Shown(blocks, gate, lines, failed), items, i)
  }

  lemma ScanLine(items: seq<Item>, i: nat, last: int, gate: Text, lines: seq<Text>, failed: bool, blocks: seq<Block>)
    requires i < |items| && items[i].Body? && -1 <= last < i && Scanned(items, i, last, gate, lines, failed, blocks)
    ensures Scanned(items, i + 1, last, gate, if failed then lines + [items[i].line] else lines, failed, blocks)
  {
    hide IsSegmentation;
    hide Reporting;
    if failed {
      assert LinesOf(items, last + 1, i + 1) == lines + [items[i].line];
    }
    if failed && gate != [] {
      LineGoesOn(items, i, last, gate, lines, blocks);
    } else {
      LineElsewhere(items, i, last, blocks);
    }
  }

  lemma ScanHeader(items: seq<Item>, i: nat, last: int, gate: Text, lines: seq<Text>, failed: bool, blocks: seq<Block>)
    requires i < |items| && items[i].Head? && -1 <= last < i && Scanned(items, i, last, gate, lines, failed, blocks)
    ensures Scanned(items, i + 1, i, items[i].gate, [], items[i].failed, Shown(blocks, gate, lines, failed))
  {
    HeaderStarts(items, i, Shown(blocks, gate, lines, failed));
  }

  lemma NothingYet(items: seq<Item>)
    ensures Scanned(items, 0, -1, [], [], false, [])
  {
  }

  /** `_failed_gate_blocks`: one pass with three variables. */
  method FailedGateBlocks(rules: Rules, raw: seq<Text>) returns (blocks: seq<Block>)
    ensures IsSegmentation(blocks, Items(rules, raw), |raw|)
    ensures forall k :: 0 <= k < |blocks| ==> blocks[k].gate != []
  {
    hide IsSegmentation;
    hide Reporting;
    hide TrimRight;
    ghost var items := Items(rules, raw);
    NothingYet(items);
    var gate: Text := [];
    var lines: seq<Text> := [];
    var failed := false;
    blocks := [];
    ghost var last := -1;
    for i := 0 to |raw|
      invariant -1 <= last < i
      invariant Scanned(items, i, last, gate, lines, failed, blocks)
      invariant forall k :: 0 <= k < |blocks| ==> blocks[k].gate != []
    {
      hide Scanned;
      var line := TrimRight(raw[i], IsSpaceCode);
      var header := rules.header(line);
      assert items[i] == Classify(rules, raw[i]);
      if header.Some? {
        ScanHeader(items, i, last, gate, lines, failed, blocks);
        if failed && gate != [] {
          blocks := blocks + [Block(gate, lines)];
        }
        gate := rules.clean(header.value.name);
        failed := header.value.status == Failed;
        lines := [];
        last := i;
      } else {
        ScanLine(items, i, last, gate, lines, failed, blocks);
        if failed {
          lines := lines + [line];
        }
      }
    }
    if failed && gate != [] {
      blocks := blocks + [Block(gate, lines)];
    }
  }

  // ---------------------------------------------------------------- picking lines

  /** The first line that `keep` accepts. */
  function FirstWhere(lines: seq<Text>, keep: Text -> bool): (r: Option<Text>)
    ensures r.Some? ==> r.value in lines && keep(r.value)
    ensures r.None? ==> forall l :: l in lines ==> !keep(l)
  {
    if lines == [] then None
    else if keep(lines[0]) then Some(lines[0])
    else FirstWhere(lines[1..], keep)
  }

  function Cleaned(rules: Rules, lines: seq<Text>): (r: seq<Text>)
    ensures |r| == |lines| && forall i :: 0 <= i < |lines| ==> r[i] == rules.clean(lines[i])
  {
    seq(|lines|, i requires 0 <= i < |lines| => rules.clean(lines[i]))
  }

  predicate Meaningful(rules: Rules, line: Text) { line != [] && !rules.noise(line) }

  function NoReason(): Text { T("This gate reported a blocker.") }

  function PlainIn(rules: Rules): Text -> bool { l => !rules.safetyNote(l) && Meaningful(rules, l) }

  /** `_first_meaningful_line`; the second look cleans every line once more. */
  function FirstMeaningfulLine(rules: Rules, lines: seq<Text>): (r: Text)
    ensures r != []
  {
    var cleaned := Cleaned(rules, lines);
    var first := FirstWhere(cleaned, PlainIn(rules));
    if first.Some? then first.value
    else
      var second := FirstWhere(Cleaned(rules, cleaned), MeaningfulIn(rules));
      if second.Some? then second.value else NoReason()
  }

  /** `r` is the first of the lines that `keep` accepts. */
  ghost predicate IsFirst(r: Text, lines: seq<Text>, keep: Text -> bool) {
    exists i :: 0 <= i < |lines| && lines[i] == r && keep(r) && forall j :: 0 <= j < i ==> !keep(lines[j])
  }

  lemma {:induction false} FirstWhereIsFirst(lines: seq<Text>, keep: Text -> bool)
    ensures FirstWhere(lines, keep).Some? ==> IsFirst(FirstWhere(lines, keep).value, lines, keep)
  {
    if lines != [] {
      if keep(lines[0]) {
        assert IsFirst(lines[0], lines, keep);
      } else {
        FirstWhereIsFirst(lines[1..], keep);
        var first := FirstWhere(lines[1..], keep);
        if first.Some? {
          var tail := lines[1..];
          var i :| 0 <= i < |tail| && tail[i] == first.value && forall j :: 0 <= j < i ==> !keep(tail[j]);
          assert forall j :: 0 < j <= i ==> lines[j] == lines[1..][j - 1];
          assert lines[i + 1] == first.value;
        }
      }
    }
  }

  /** The reason shown is the first meaningful cleaned line that is no safety-gate note; failing
      that the first meaningful one at all (cleaned again); failing that a stock phrase. */
  lemma FirstMeaningfulLineExact(rules: Rules, lines: seq<Text>)
    ensures var r, cleaned := FirstMeaningfulLine(rules, lines), Cleaned(rules, lines);
            || IsFirst(r, cleaned, PlainIn(rules))
            || ((forall l :: l in cleaned ==> !PlainIn(rules)(l))
                && (IsFirst(r, Cleaned(rules, cleaned), MeaningfulIn(rules))
                    || (r == NoReason() && forall l :: l in Cleaned(rules, cleaned) ==> !MeaningfulIn(rules)(l))))
  {
    hide IsFirst, NoReason;
    var cleaned := Cleaned(rules, lines);
    FirstWhereIsFirst(cleaned, PlainIn(rules));
    FirstWhereIsFirst(Cleaned(rules, cleaned), MeaningfulIn(rules));
  }

  /** The lines `keep` accepts, in order, no more than `limit`. */
  function Pick(lines: seq<Text>, keep: Text -> bool, limit: nat): (r: seq<Text>)
    ensures |r| <= limit
    ensures forall l :: l in r ==> l in lines && keep(l)
    ensures r == [] && limit > 0 ==> forall l :: l in lines ==> !keep(l)
  {
    if lines == [] then []
    else
      var n := |lines| - 1;
      var before := Pick(lines[..n], keep, limit);
      assert lines == lines[..n] + [lines[n]];
      if keep(lines[n]) && |before| < limit then before + [lines[n]] else before
  }

  lemma {:induction false} PickFull(lines: seq<Text>, keep: Text -> bool, limit: nat, i: nat)
    requires i <= |lines| && |Pick(lines[..i], keep, limit)| == limit
    ensures Pick(lines, keep, limit) == Pick(lines[..i], keep, limit)
    decreases |lines|
  {
    if i < |lines| {
      var n := |lines| - 1;
      assert lines[..n][..i] == lines[..i];
      PickFull(lines[..n], keep, limit, i);
    } else {
      assert lines[..i] == lines;
    }
  }

  /** `r` holds the first `limit` lines `keep` accepts, in order, or all of them if there are fewer. */
  ghost predicate FirstKept(r: seq<Text>, lines: seq<Text>, keep: Text -> bool, limit: nat) {
    |r| <= limit
    && exists n :: 0 <= n <= |lines| && Filtered(r, lines[..n], keep) && (n == |lines| || |r| == limit)
  }

  lemma {:induction false} PickIsFirstKept(lines: seq<Text>, keep: Text -> bool, limit: nat)
    ensures FirstKept(Pick(lines, keep, limit), lines, keep, limit)
  {
    hide Filtered;
    if lines == [] {
      FilteredNothing(keep);
      assert lines[..0] == [];
    } else {
      var n := |lines| - 1;
      var before := Pick(lines[..n], keep, limit);
      PickIsFirstKept(lines[..n], keep, limit);
      var m :| 0 <= m <= n && Filtered(before, lines[..n][..m], keep) && (m == n || |before| == limit);
      assert lines[..n][..m] == lines[..m];
      if |before| < limit {
        FilteredSnoc(before, lines[..n], lines[n], keep);
        assert lines[..n] + [lines[n]] == lines && lines[..|lines|] == lines;
      }
    }
  }

  predicate FoldsInto(line: Text, among: seq<Text>, fold: Text -> Text) {
    exists i :: 0 <= i < |among| && fold(among[i]) == fold(line)
  }

  /** First occurrences under `fold`. */
  function Dedupe(lines: seq<Text>, fold: Text -> Text): (r: seq<Text>)
    ensures |r| <= |lines|
    ensures forall l :: l in r ==> l in lines
    ensures forall i, j :: 0 <= i < j < |r| ==> fold(r[i]) != fold(r[j])
    ensures forall i :: 0 <= i < |lines| ==> FoldsInto(lines[i], r, fold)
  {
    if lines == [] then []
    else
      var n := |lines| - 1;
      var before := Dedupe(lines[..n], fold);
      DedupeStep(lines[..n], lines[n], before, fold);
      assert lines == lines[..n] + [lines[n]];
      if FoldsInto(lines[n], before, fold) then before else before + [lines[n]]
  }

  lemma DedupeStep(seen: seq<Text>, line: Text, before: seq<Text>, fold: Text -> Text)
    requires forall i :: 0 <= i < |seen| ==> FoldsInto(seen[i], before, fold)
    ensures forall i :: 0 <= i < |seen| ==> FoldsInto(seen[i], before + [line], fold)
    ensures FoldsInto(line, before + [line], fold)
  {
    var longer := before + [line];
    assert longer[|before|] == line;
    forall i | 0 <= i < |seen| ensures FoldsInto(seen[i], longer, fold) {
      var k :| 0 <= k < |before| && fold(before[k]) == fold(seen[i]);
      assert longer[k] == before[k];
    }
  }

  /** `r` holds the lines that fold unlike every earlier one, in order. */
  ghost predicate FirstsOf(r: seq<Text>, lines: seq<Text>, fold: Text -> Text) {
    exists at :: Picks(r, lines, at)
      && forall i :: 0 <= i < |lines| ==> (i in at <==> IsNew(lines, i, fold))
  }

  ghost predicate IsNew(lines: seq<Text>, i: nat, fold: Text -> Text)
    requires i < |lines|
  {
    forall j :: 0 <= j < i ==> fold(lines[j]) != fold(lines[i])
  }

  lemma {:induction false} DedupeIsFirsts(lines: seq<Text>, fold: Text -> Text)
    ensures FirstsOf(Dedupe(lines, fold), lines, fold)
  {
    if lines == [] {
      assert Picks([], lines, []);
    } else {
      DedupeIsFirsts(lines[..|lines| - 1], fold);
      DedupeOneMore(lines, fold);
    }
  }

  lemma DedupeOneMore(lines: seq<Text>, fold: Text -> Text)
    requires lines != [] && FirstsOf(Dedupe(lines[..|lines| - 1], fold), lines[..|lines| - 1], fold)
    ensures FirstsOf(Dedupe(lines, fold), lines, fold)
  {
    hide FoldsInto, IsNew, Picks;
    var n := |lines| - 1;
    var before := Dedupe(lines[..n], fold);
    var at: seq<nat> :| Picks(before, lines[..n], at)
                        && forall i :: 0 <= i < n ==> (i in at <==> IsNew(lines[..n], i, fold));
    NewIffNotFolded(lines, before, fold, at);
    assert Dedupe(lines, fold) == if IsNew(lines, n, fold) then before + [lines[n]] else before;
    hide FirstsOf, Dedupe;
    forall i | 0 <= i < n ensures IsNew(lines, i, fold) <==> i in at {
      NewInPart(lines, n, i, fold);
    }
    OneMoreFirst(before, lines, at, fold);
  }

  lemma OneMoreFirst(before: seq<Text>, lines: seq<Text>, at: seq<nat>, fold: Text -> Text)
    requires lines != [] && Picks(before, lines[..|lines| - 1], at)
    requires forall i :: 0 <= i < |lines| - 1 ==> (i in at <==> IsNew(lines, i, fold))
    ensures FirstsOf(if IsNew(lines, |lines| - 1, fold) then before + [lines[|lines| - 1]] else before, lines, fold)
  {
    PicksLonger(before, lines, at);
    hide Picks, IsNew;
    var n := |lines| - 1;
    var all := if IsNew(lines, n, fold) then at + [n] else at;
    assert forall i :: 0 <= i < |lines| ==> (i in all <==> IsNew(lines, i, fold));
  }

  lemma NewInPart(lines: seq<Text>, n: nat, i: nat, fold: Text -> Text)
    requires i < n <= |lines|
    ensures IsNew(lines[..n], i, fold) <==> IsNew(lines, i, fold)
  {
    assert forall j :: 0 <= j <= i ==> lines[..n][j] == lines[j];
  }

  lemma PicksLonger(before: seq<Text>, lines: seq<Text>, at: seq<nat>)
    requires lines != [] && Picks(before, lines[..|lines| - 1], at)
    ensures Picks(before, lines, at) && Picks(before + [lines[|lines| - 1]], lines, at + [|lines| - 1])
    ensures |lines| - 1 !in at
  {
    var n := |lines| - 1;
    assert forall k :: 0 <= k < |at| ==> lines[..n][at[k]] == lines[at[k]];
  }

  lemma NewIffNotFolded(lines: seq<Text>, before: seq<Text>, fold: Text -> Text, at: seq<nat>)
    requires lines != [] && before == Dedupe(lines[..|lines| - 1], fold) && Picks(before, lines[..|lines| - 1], at)
    ensures IsNew(lines, |lines| - 1, fold) <==> !FoldsInto(lines[|lines| - 1], before, fold)
  {
    var n := |lines| - 1;
    if j :| 0 <= j < n && fold(lines[j]) == fold(lines[n]) {
      assert FoldsInto(lines[..n][j], before, fold);
    }
    if k :| 0 <= k < |before| && fold(before[k]) == fold(lines[n]) {
      assert lines[at[k]] == before[k];
    }
  }

  function MeaningfulIn(rules: Rules): Text -> bool { l => Meaningful(rules, l) }
  function TellingIn(rules: Rules): Text -> bool { l => Meaningful(rules, l) && rules.evidence(l) }

  function Selected(rules: Rules, cleaned: seq<Text>): (r: seq<Text>)
    ensures |r| <= MAX_EVIDENCE_LINES
    ensures forall l :: l in r ==> Meaningful(rules, l) && l in cleaned
    ensures (exists l :: l in cleaned && TellingIn(rules)(l)) ==> forall l :: l in r ==> rules.evidence(l)
    ensures r == [] ==> forall l :: l in cleaned ==> !Meaningful(rules, l)
  {
    var telling := Pick(cleaned, TellingIn(rules), MAX_EVIDENCE_LINES);
    if telling != [] then telling else Pick(cleaned, MeaningfulIn(rules), MAX_EVIDENCE_LINES)
  }

  function EvidenceLines(rules: Rules, lines: seq<Text>): seq<Text> {
    Dedupe(Selected(rules, Cleaned(rules, lines)), rules.fold)
  }

  /** The evidence is at most four meaningful cleaned lines, no two alike, only telling ones
      (those the evidence expression matches) as soon as there is one, and none only if no
      line is meaningful. */
  lemma EvidenceLinesExact(rules: Rules, lines: seq<Text>)
    ensures var r, cleaned := EvidenceLines(rules, lines), Cleaned(rules, lines);
            && |r| <= MAX_EVIDENCE_LINES
            && (forall l :: l in r ==> Meaningful(rules, l) && l in cleaned)
            && (forall i, j :: 0 <= i < j < |r| ==> rules.fold(r[i]) != rules.fold(r[j]))
            && ((exists l :: l in cleaned && TellingIn(rules)(l)) ==> forall l :: l in r ==> rules.evidence(l))
            && (r == [] ==> forall l :: l in cleaned ==> !Meaningful(rules, l))
  {
    var cleaned := Cleaned(rules, lines);
    var selected := Selected(rules, cleaned);
    var r := Dedupe(selected, rules.fold);
    if selected != [] {
      assert FoldsInto(selected[0], r, rules.fold);
    }
  }

  /** Which lines those are: of the first four telling ones, or the first four meaningful ones if none is
      telling, those unlike every earlier one, in order. */
  lemma EvidenceIsFirstFour(rules: Rules, lines: seq<Text>)
    ensures var cleaned := Cleaned(rules, lines);
            var anyTelling := exists l :: l in cleaned && TellingIn(rules)(l);
            var keep := if anyTelling then TellingIn(rules) else MeaningfulIn(rules);
            exists four :: FirstKept(four, cleaned, keep, 4) && FirstsOf(EvidenceLines(rules, lines), four, rules.fold)
  {
    hide FirstKept, FirstsOf, Dedupe;
    var cleaned := Cleaned(rules, lines);
    PickIsFirstKept(cleaned, TellingIn(rules), MAX_EVIDENCE_LINES);
    PickIsFirstKept(cleaned, MeaningfulIn(rules), MAX_EVIDENCE_LINES);
    var four := Selected(rules, cleaned);
    DedupeIsFirsts(four, rules.fold);
    var telling := Pick(cleaned, TellingIn(rules), MAX_EVIDENCE_LINES);
    assert telling != [] ==> telling[0] in telling;
    var keep := if exists l :: l in cleaned && TellingIn(rules)(l) then TellingIn(rules) else MeaningfulIn(rules);
    assert FirstKept(four, cleaned, keep, 4) && FirstsOf(EvidenceLines(rules, lines), four, rules.fold);
  }

  /** The loops of `_evidence_lines`, the first stopping as soon as four lines are found. */
  method CollectEvidence(rules: Rules, lines: seq<Text>) returns (r: seq<Text>)
    ensures r == EvidenceLines(rules, lines)
  {
    var cleaned := Cleaned(rules, lines);
    var selected := Gather(cleaned, TellingIn(rules));
    if selected == [] {
      selected := Gather(cleaned, MeaningfulIn(rules));
    }
    assert selected == Selected(rules, cleaned);
    r := DedupeLines(selected, rules.fold);
  }

  method DedupeLines(lines: seq<Text>, fold: Text -> Text) returns (r: seq<Text>)
    ensures r == Dedupe(lines, fold)
  {
    r := [];
    for i := 0 to |lines|
      invariant r == Dedupe(lines[..i], fold)
    {
      assert lines[..i + 1][..i] == lines[..i];
      if !FoldsInto(lines[i], r, fold) {
        r := r + [lines[i]];
      }
    }
    assert lines[..|lines|] == lines;
  }

  method Gather(lines: seq<Text>, keep: Text -> bool) returns (r: seq<Text>)
    ensures r == Pick(lines, keep, MAX_EVIDENCE_LINES)
  {
    r := [];
    for i := 0 to |lines|
      invariant |r| < MAX_EVIDENCE_LINES && r == Pick(lines[..i], keep, MAX_EVIDENCE_LINES)
    {
      assert lines[..i + 1][..i] == lines[..i];
      if keep(lines[i]) {
        r := r + [lines[i]];
      }
      if |r| >= MAX_EVIDENCE_LINES {
        PickFull(lines, keep, MAX_EVIDENCE_LINES, i + 1);
        return;
      }
    }
    assert lines[..|lines|] == lines;
  }

  // ---------------------------------------------------------------- the context

  datatype Issue = Issue(gate: Text, why: Text, evidence: seq<Text>, recommendation: Text,
                         plainReason: Text, impact: Text, nextStep: Text)

  datatype Context = Context(title: Text, summary: Text, recommendation: Text, issues: seq<Issue>,
                             actionLabel: Text, cancelLabel: Text, resolutionLabel: Text, resolutionPrompt: Text)

  /** The model-written guidance and the fixed recommendation table, as looked up. */
  datatype Guidance = Guidance(
    recommendation: (Text, seq<Text>, nat) -> Text,
    plainReason: (Text, nat) -> Text,
    impact: (Text, nat) -> Text,
    nextStep: (Text, nat) -> Text,
    overall: Text,
    actionLabel: Text,
    cancelLabel: Text,
    resolutionLabel: Text,
    resolutionPrompt: Text,
    cut: seq<Text> -> seq<Text>)  // the block after its 3000-character cut

  function Or(t: Text, fallback: Text): Text { if t != [] then t else fallback }

  function IssueOf(rules: Rules, guidance: Guidance, block: Block, index: nat): Issue {
    var trimmed := guidance.cut(block.lines);
    var evidence := EvidenceLines(rules, trimmed);
    Issue(block.gate, FirstMeaningfulLine(rules, trimmed), evidence,
          guidance.recommendation(block.gate, evidence, index), guidance.plainReason(block.gate, index),
          guidance.impact(block.gate, index), guidance.nextStep(block.gate, index))
  }

  function CommandFailed(): (t: Text)
    ensures t != []
  {
    T("The normal commit command failed.")
  }

  function InspectAdvice(): Text { T("I would stop and inspect the full commit output before authorizing.") }

  function NonEmpty(): Text -> bool { l => l != [] }

  /** The issue shown when no gate reported a failure: the first non-empty lines of the output. */
  function FallbackIssue(rules: Rules, raw: seq<Text>): Issue {
    var lines := Pick(Cleaned(rules, raw), NonEmpty(), 3);
    Issue(T("Commit blocker"), if lines != [] then lines[0] else CommandFailed(), lines,
          InspectAdvice(), [], [], [])
  }

  function NoHeadersSummary(): (t: Text)
    ensures t != []
  {
    T("Thomas could not commit normally, but the gate output did not include structured failure headers.")
  }

  function FoundSummary(n: nat): (t: Text)
    ensures t != []
  {
    T("Thomas found ") + [C('0') + n % 10]
    + T(" issue(s) that stopped the commit. Read the recommendation before authorizing.")
  }

  /** `_clean_line` strips what it returns. */
  ghost predicate CleanStrips(rules: Rules) {
    forall t :: StripText(rules.clean(t)) == rules.clean(t)
  }

  /** One issue for each of the first `n` blocks. */
  function IssuesOf(rules: Rules, guidance: Guidance, blocks: seq<Block>, n: nat): (issues: seq<Issue>)
    requires n <= |blocks|
    ensures |issues| == n && forall k :: 0 <= k < n ==> issues[k] == IssueOf(rules, guidance, blocks[k], k)
  {
    seq(n, k requires 0 <= k < n => IssueOf(rules, guidance, blocks[k], k))
  }

  function Least(a: nat, b: nat): nat { if a < b then a else b }

  function ContextOf(rules: Rules, guidance: Guidance, raw: seq<Text>, blocks: seq<Block>, actionLabel: Text,
      cancelLabel: Text): Context {
    var issues := IssuesOf(rules, guidance, blocks, Least(|blocks|, MAX_ISSUES));
    Context(T("Thomas commit blocker"),
            if issues != [] then FoundSummary(|issues|)
            else NoHeadersSummary(),
            guidance.overall,
            if issues != [] then issues else [FallbackIssue(rules, raw)],
            Or(guidance.actionLabel, actionLabel), Or(guidance.cancelLabel, cancelLabel),
            guidance.resolutionLabel, guidance.resolutionPrompt)
  }

  /** What an issue shows of its gate's block: its name; the guidance for it; as the reason the first line
      that is meaningful and no safety note, if there is one; and the first four telling lines, or meaningful
      ones if none is telling, less those like an earlier one. */
  ghost predicate Shows(rules: Rules, guidance: Guidance, issue: Issue, gate: Text, index: nat, lines: seq<Text>) {
    var cleaned := Cleaned(rules, lines);
    && issue.gate == gate && issue.recommendation == guidance.recommendation(gate, issue.evidence, index)
    && issue.plainReason == guidance.plainReason(gate, index) && issue.impact == guidance.impact(gate, index)
    && issue.nextStep == guidance.nextStep(gate, index)
    && ((exists l :: l in cleaned && PlainIn(rules)(l)) ==> IsFirst(issue.why, cleaned, PlainIn(rules)))
    && ShowsEvidence(rules, issue, cleaned)
  }

  ghost predicate ShowsEvidence(rules: Rules, issue: Issue, cleaned: seq<Text>) {
    var keep := if exists l :: l in cleaned && TellingIn(rules)(l) then TellingIn(rules) else MeaningfulIn(rules);
    exists four :: FirstKept(four, cleaned, keep, 4) && FirstsOf(issue.evidence, four, rules.fold)
  }

  /** A built context shows the first five blocks, or says there were none and shows the first three lines
      that clean to anything. */
  lemma BuiltContextShows(rules: Rules, guidance: Guidance, raw: seq<Text>, blocks: seq<Block>, actionLabel: Text,
      cancelLabel: Text)
    ensures ShowsBlocks(rules, guidance, raw, blocks,
                        ContextOf(rules, guidance, raw, blocks, actionLabel, cancelLabel))
  {
    hide Shows, FirstKept, FoundSummary, NoHeadersSummary, IssueOf, T;
    forall k | 0 <= k < |blocks|
      ensures Shows(rules, guidance, IssueOf(rules, guidance, blocks[k], k), blocks[k].gate, k,
                    guidance.cut(blocks[k].lines))
    {
      IssueShows(rules, guidance, blocks[k], k);
    }
    PickIsFirstKept(Cleaned(rules, raw), NonEmpty(), 3);
  }

  ghost predicate ShowsBlocks(rules: Rules, guidance: Guidance, raw: seq<Text>, blocks: seq<Block>, c: Context) {
    && (blocks != [] ==> |c.issues| == if |blocks| < 5 then |blocks| else 5)
    && (forall k :: 0 <= k < |c.issues| && k < |blocks| ==>
            Shows(rules, guidance, c.issues[k], blocks[k].gate, k, guidance.cut(blocks[k].lines)))
    && (blocks == [] ==> |c.issues| == 1
                         && FirstKept(c.issues[0].evidence, Cleaned(rules, raw), NonEmpty(), 3))
    && c.recommendation == guidance.overall
    && c.resolutionLabel == guidance.resolutionLabel && c.resolutionPrompt == guidance.resolutionPrompt
    && (guidance.actionLabel != [] ==> c.actionLabel == guidance.actionLabel)
    && (guidance.cancelLabel != [] ==> c.cancelLabel == guidance.cancelLabel)
  }

  lemma IssueShows(rules: Rules, guidance: Guidance, block: Block, index: nat)
    ensures Shows(rules, guidance, IssueOf(rules, guidance, block, index), block.gate, index,
                  guidance.cut(block.lines))
  {
    hide IsFirst, FirstKept, FirstsOf, FirstMeaningfulLine, EvidenceLines;
    EvidenceIsFirstFour(rules, guidance.cut(block.lines));
    FirstMeaningfulLineExact(rules, guidance.cut(block.lines));
  }

  lemma IssuesAreCanonical(rules: Rules, guidance: Guidance, blocks: seq<Block>, n: nat)
    requires CleanStrips(rules) && n <= |blocks| && forall k :: 0 <= k < |blocks| ==> blocks[k].gate != []
    ensures forall k :: 0 <= k < n ==> CanonicalIssue(IssuesOf(rules, guidance, blocks, n)[k])
  {
    forall k | 0 <= k < n ensures CanonicalIssue(IssuesOf(rules, guidance, blocks, n)[k]) {
      IssueIsCanonical(rules, guidance, blocks[k], k);
    }
  }

  /** Whatever the gates printed, a context built with non-empty default labels holds nothing
      the reader would replace or drop. */
  lemma BuiltContextIsCanonical(rules: Rules, guidance: Guidance, raw: seq<Text>, blocks: seq<Block>,
      actionLabel: Text, cancelLabel: Text)
    requires CleanStrips(rules) && actionLabel != [] && cancelLabel != []
    requires forall k :: 0 <= k < |blocks| ==> blocks[k].gate != []
    ensures Canonical(ContextOf(rules, guidance, raw, blocks, actionLabel, cancelLabel))
  {
    hide CleanStrips;
    hide IssuesOf;
    hide IssueOf;
    hide FallbackIssue;
    hide CanonicalIssue;
    hide FoundSummary;
    hide NoHeadersSummary;
    hide T;
    IssuesAreCanonical(rules, guidance, blocks, Least(|blocks|, MAX_ISSUES));
    FallbackIsCanonical(rules, raw);
  }

  method BuildCommitBlockerContext(rules: Rules, guidance: Guidance, raw: seq<Text>, actionLabel: Text,
      cancelLabel: Text)
    returns (context: Context, blocks: seq<Block>)
    requires CleanStrips(rules)
    ensures IsSegmentation(blocks, Items(rules, raw), |raw|)
    ensures context == ContextOf(rules, guidance, raw, blocks, actionLabel, cancelLabel)
    ensures actionLabel != [] && cancelLabel != [] ==> Canonical(context)
  {
    hide *;
    blocks := FailedGateBlocks(rules, raw);
    context := ContextOf(rules, guidance, raw, blocks, actionLabel, cancelLabel);
    if actionLabel != [] && cancelLabel != [] {
      BuiltContextIsCanonical(rules, guidance, raw, blocks, actionLabel, cancelLabel);
    }
  }

  /** What the reader puts a default in place of, or drops, is not there. */
  predicate CanonicalIssue(i: Issue) {
    && i.gate != [] && i.why != [] && |i.evidence| <= MAX_EVIDENCE_LINES
    && forall k :: 0 <= k < |i.evidence| ==> StripText(i.evidence[k]) != []
  }

  predicate Canonical(c: Context) {
    && c.title != [] && c.summary != [] && c.actionLabel != [] && c.cancelLabel != []
    && 1 <= |c.issues| <= MAX_ISSUES
    && forall k :: 0 <= k < |c.issues| ==> CanonicalIssue(c.issues[k])
  }

  lemma CleanedStay(rules: Rules, lines: seq<Text>, picked: seq<Text>)
    requires CleanStrips(rules)
    requires forall l :: l in picked ==> l != [] && l in Cleaned(rules, lines)
    ensures forall k :: 0 <= k < |picked| ==> StripText(picked[k]) != []
  {
    forall k | 0 <= k < |picked| ensures StripText(picked[k]) != [] {
      assert picked[k] in picked;
      var i :| 0 <= i < |lines| && Cleaned(rules, lines)[i] == picked[k];
    }
  }

  lemma IssueIsCanonical(rules: Rules, guidance: Guidance, block: Block, index: nat)
    requires block.gate != [] && CleanStrips(rules)
    ensures CanonicalIssue(IssueOf(rules, guidance, block, index))
  {
    var trimmed := guidance.cut(block.lines);
    EvidenceLinesExact(rules, trimmed);
    CleanedStay(rules, trimmed, EvidenceLines(rules, trimmed));
  }

  lemma FallbackIsCanonical(rules: Rules, raw: seq<Text>)
    requires CleanStrips(rules)
    ensures CanonicalIssue(FallbackIssue(rules, raw))
  {
    hide CommandFailed;
    hide InspectAdvice;
    var lines := Pick(Cleaned(rules, raw), NonEmpty(), 3);
    CleanedStay(rules, raw, lines);
    assert lines != [] ==> lines[0] in lines;
  }
}
