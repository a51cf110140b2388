/** The bounded JSON form of a breakglass context: `breakglass_context_to_json` and
    `breakglass_context_from_json` of `scripts/breakglass_context.py`. */
module ContextCodec {
  import opened Strings
  import opened Json
  import opened BreakglassContext

  // ---------------------------------------------------------------- writing

  function StrItems(texts: seq<Text>): (r: seq<Value>)
    ensures |r| == |texts| && forall i :: 0 <= i < |r| ==> r[i] == Str(texts[i])
  {
    seq(|texts|, i requires 0 <= i < |texts| => Str(texts[i]))
  }

  /** Members in the order `sort_keys` puts them. */
  function IssueMembers(i: Issue): seq<Member> {
    [Member(T("evidence"), Arr(StrItems(i.evidence))),
     Member(T("gate"), Str(i.gate)),
     Member(T("impact"), Str(i.impact)),
     Member(T("next_step"), Str(i.nextStep)),
     Member(T("plain_reason"), Str(i.plainReason)),
     Member(T("recommendation"), Str(i.recommendation)),
     Member(T("why"), Str(i.why))]
  }

  function IssueItems(issues: seq<Issue>): (r: seq<Value>)
    ensures |r| == |issues| && forall i :: 0 <= i < |r| ==> r[i] == Obj(IssueMembers(issues[i]))
  {
    seq(|issues|, i requires 0 <= i < |issues| => Obj(IssueMembers(issues[i])))
  }

  function ContextMembers(c: Context): seq<Member> {
    [Member(T("action_label"), Str(c.actionLabel)),
     Member(T("cancel_label"), Str(c.cancelLabel)),
     Member(T("issues"), Arr(IssueItems(c.issues))),
     Member(T("recommendation"), Str(c.recommendation)),
     Member(T("resolution_label"), Str(c.resolutionLabel)),
     Member(T("resolution_prompt"), Str(c.resolutionPrompt)),
     Member(T("summary"), Str(c.summary)),
     Member(T("title"), Str(c.title))]
  }

  function Encoding(c: Context): Text { Encode(Obj(ContextMembers(c))) }

  predicate Fits(c: Context) { |Encoding(c)| <= MAX_CONTEXT_CHARS }

  function ToJson(c: Context): Text {
    if Fits(c) then Encoding(c) else Encoding(c)[..MAX_CONTEXT_CHARS]
  }

  // ---------------------------------------------------------------- reading

  /** `payload.get(key)`: of repeated keys the last one counts. */
  function Get(members: seq<Member>, key: Text): Option<Value> {
    if members == [] then None
    else
      var n := |members| - 1;
      if members[n].key == key then Some(members[n].value) else Get(members[..n], key)
  }

  predicate Truthy(v: Value) {
    match v
    case Null => false
    case Bool(b) => b
    case Num(digits) => exists i :: 0 <= i < |digits| && !IsZeroPart(digits, i)
    case Str(s) => s != []
    case Arr(items) => items != []
    case Obj(members) => members != []
  }

  /** Character `i` of a number does not keep its value from being zero. */
  predicate IsZeroPart(digits: Text, i: nat)
    requires i < |digits|
  {
    || digits[i] == C('0') || digits[i] == C('-') || digits[i] == C('.')
    || exists j :: 0 <= j <= i && (digits[j] == C('e') || digits[j] == C('E'))
  }

  /** `str(value or default)`; `show` is `str` on values that are no strings. */
  function TextOr(v: Option<Value>, fallback: Text, show: Value -> Text): Text {
    if v.Some? && Truthy(v.value) then (if v.value.Str? then v.value.s else show(v.value)) else fallback
  }

  function Shown(v: Value, show: Value -> Text): Text { if v.Str? then v.s else show(v) }

  /** The items whose text is not blank. */
  function NonBlank(items: seq<Value>, show: Value -> Text): (r: seq<Text>)
    ensures |r| <= |items|
  {
    if items == [] then []
    else
      var t := Shown(items[0], show);
      if StripText(t) != [] then [t] + NonBlank(items[1..], show) else NonBlank(items[1..], show)
  }

  function UpTo<A>(s: seq<A>, n: nat): seq<A> { if |s| <= n then s else s[..n] }

  function ReadEvidence(v: Option<Value>, show: Value -> Text): seq<Text> {
    if v.Some? && v.value.Arr? then UpTo(NonBlank(v.value.items, show), MAX_EVIDENCE_LINES) else []
  }

  function ReadIssue(members: seq<Member>, show: Value -> Text): Issue {
    Issue(TextOr(Get(members, T("gate")), T("Commit blocker"), show),
          TextOr(Get(members, T("why")), T("This gate reported a blocker."), show),
          ReadEvidence(Get(members, T("evidence")), show),
          TextOr(Get(members, T("recommendation")), [], show),
          TextOr(Get(members, T("plain_reason")), [], show),
          TextOr(Get(members, T("impact")), [], show),
          TextOr(Get(members, T("next_step")), [], show))
  }

  /** The rows that are objects. */
  function ReadIssues(rows: seq<Value>, show: Value -> Text): seq<Issue> {
    if rows == [] then []
    else if rows[0].Obj? then [ReadIssue(rows[0].members, show)] + ReadIssues(rows[1..], show)
    else ReadIssues(rows[1..], show)
  }

  function ReadContext(members: seq<Member>, show: Value -> Text): Option<Context> {
    var rows := Get(members, T("issues"));
    var issues := if rows.Some? && rows.value.Arr? then ReadIssues(UpTo(rows.value.items, MAX_ISSUES), show) else [];
    if issues == [] then None
    else Some(Context(
      TextOr(Get(members, T("title")), T("Thomas commit blocker"), show),
      TextOr(Get(members, T("summary")), T("Thomas found a commit blocker."), show),
      TextOr(Get(members, T("recommendation")), [], show),
      issues,
      TextOr(Get(members, T("action_label")), T("Authorize recommended commit"), show),
      TextOr(Get(members, T("cancel_label")), T("Back out and talk to Thomas"), show),
      TextOr(Get(members, T("resolution_label")), [], show),
      TextOr(Get(members, T("resolution_prompt")), [], show)))
  }

  function FromJson(raw: Text, show: Value -> Text): Option<Context> {
    var text := StripText(raw);
    if text == [] then None
    else
      var payload := Loads(text);
      if payload.Some? && payload.value.Obj? then ReadContext(payload.value.members, show) else None
  }

  lemma {:induction false} NonBlankHolds(items: seq<Value>, show: Value -> Text)
    ensures forall t :: t in NonBlank(items, show) ==> StripText(t) != []
  {
    if items != [] { NonBlankHolds(items[1..], show); }
  }

  lemma EvidenceReadIsCanonical(v: Option<Value>, show: Value -> Text)
    ensures var r := ReadEvidence(v, show);
            |r| <= MAX_EVIDENCE_LINES && forall k :: 0 <= k < |r| ==> StripText(r[k]) != []
  {
    hide StripText;
    if v.Some? && v.value.Arr? {
      var all := NonBlank(v.value.items, show);
      NonBlankHolds(v.value.items, show);
      assert forall k :: 0 <= k < |all| ==> all[k] in all;
    }
  }

  /** `str` gives a value that counts as true some text. */
  ghost predicate ShowsSomething(show: Value -> Text) {
    forall v :: Truthy(v) && !v.Str? ==> show(v) != []
  }

  /** The default stands in for a missing value, null, false, an empty text, list or object, and no other
      value but a number that is zero. */
  lemma WhatFallsBack(v: Value, fallback: Text, show: Value -> Text)
    ensures TextOr(None, fallback, show) == fallback
    ensures v == Null || v == Bool(false) || v == Str([]) || v == Arr([]) || v == Obj([]) ==>
              TextOr(Some(v), fallback, show) == fallback
    ensures v.Str? && v.s != [] ==> TextOr(Some(v), fallback, show) == v.s
    ensures v == Bool(true) || (v.Arr? && v != Arr([])) || (v.Obj? && v != Obj([])) ==>
              TextOr(Some(v), fallback, show) == show(v)
  {
  }

  lemma TextOrIsSomething(v: Option<Value>, fallback: Text, show: Value -> Text)
    requires ShowsSomething(show) && fallback != []
    ensures TextOr(v, fallback, show) != []
  {
    hide IsZeroPart;
  }

  lemma IssueReadIsCanonical(members: seq<Member>, show: Value -> Text)
    requires ShowsSomething(show)
    ensures CanonicalIssue(ReadIssue(members, show))
  {
    hide TextOr, ReadEvidence, ShowsSomething, StripText, Get;
    assert T("Commit blocker") != [] && T("This gate reported a blocker.") != [];
    TextOrIsSomething(Get(members, T("gate")), T("Commit blocker"), show);
    TextOrIsSomething(Get(members, T("why")), T("This gate reported a blocker."), show);
    EvidenceReadIsCanonical(Get(members, T("evidence")), show);
  }

  lemma {:induction false} IssuesReadAreCanonical(rows: seq<Value>, show: Value -> Text)
    requires ShowsSomething(show)
    ensures |ReadIssues(rows, show)| <= |rows|
    ensures forall k :: 0 <= k < |ReadIssues(rows, show)| ==> CanonicalIssue(ReadIssues(rows, show)[k])
  {
    hide ReadIssue, CanonicalIssue, ShowsSomething;
    if rows != [] {
      if rows[0].Obj? { IssueReadIsCanonical(rows[0].members, show); }
      IssuesReadAreCanonical(rows[1..], show);
    }
  }

  /** Whatever text the reader is given, what it makes of it, if anything, is canonical: one to five issues,
      each named and explained, at most four lines of evidence and none of them blank, and no label,
      title or summary empty. */
  lemma WhateverIsReadIsCanonical(raw: Text, show: Value -> Text)
    requires ShowsSomething(show)
    ensures FromJson(raw, show).Some? ==> Canonical(FromJson(raw, show).value)
  {
    hide Loads, StripText, TextOr, Get, ReadIssues, CanonicalIssue, ShowsSomething;
    var payload := Loads(StripText(raw));
    if StripText(raw) != [] && payload.Some? && payload.value.Obj? {
      ContextReadIsCanonical(payload.value.members, show);
    }
  }

  lemma ContextReadIsCanonical(members: seq<Member>, show: Value -> Text)
    requires ShowsSomething(show)
    ensures ReadContext(members, show).Some? ==> Canonical(ReadContext(members, show).value)
  {
    DefaultsAreTexts();
    hide TextOr, Get, ReadIssues, CanonicalIssue, ShowsSomething, T;
    var rows := Get(members, T("issues"));
    if rows.Some? && rows.value.Arr? { IssuesReadAreCanonical(UpTo(rows.value.items, MAX_ISSUES), show); }
    TextOrIsSomething(Get(members, T("title")), T("Thomas commit blocker"), show);
    TextOrIsSomething(Get(members, T("summary")), T("Thomas found a commit blocker."), show);
    TextOrIsSomething(Get(members, T("action_label")), T("Authorize recommended commit"), show);
    TextOrIsSomething(Get(members, T("cancel_label")), T("Back out and talk to Thomas"), show);
  }

  lemma DefaultsAreTexts()
    ensures T("Thomas commit blocker") != [] && T("Thomas found a commit blocker.") != []
    ensures T("Authorize recommended commit") != [] && T("Back out and talk to Thomas") != []
  {
  }

  // ---------------------------------------------------------------- what comes back

  /** A context after a trip through JSON that was not cut: surrogate pairs merged, defaults in
      place of empty texts, blank evidence and what is over the limits dropped. */
  function RereadEvidence(texts: seq<Text>): (r: seq<Text>)
    ensures |r| <= |texts|
  {
    if texts == [] then []
    else if StripText(Merge(texts[0])) != [] then [Merge(texts[0])] + RereadEvidence(texts[1..])
    else RereadEvidence(texts[1..])
  }

  function RereadIssue(i: Issue): Issue {
    Issue(Or(Merge(i.gate), T("Commit blocker")), Or(Merge(i.why), T("This gate reported a blocker.")),
          UpTo(RereadEvidence(i.evidence), MAX_EVIDENCE_LINES), Merge(i.recommendation),
          Merge(i.plainReason), Merge(i.impact), Merge(i.nextStep))
  }

  function RereadIssues(issues: seq<Issue>): (r: seq<Issue>)
    ensures |r| == |issues| && forall k :: 0 <= k < |r| ==> r[k] == RereadIssue(issues[k])
  {
    seq(|issues|, k requires 0 <= k < |issues| => RereadIssue(issues[k]))
  }

  function Reread(c: Context): Option<Context> {
    if c.issues == [] then None
    else Some(Context(
      Or(Merge(c.title), T("Thomas commit blocker")), Or(Merge(c.summary), T("Thomas found a commit blocker.")),
      Merge(c.recommendation), RereadIssues(UpTo(c.issues, MAX_ISSUES)),
      Or(Merge(c.actionLabel), T("Authorize recommended commit")),
      Or(Merge(c.cancelLabel), T("Back out and talk to Thomas")),
      Merge(c.resolutionLabel), Merge(c.resolutionPrompt)))
  }

  // ---------------------------------------------------------------- proofs

  lemma {:induction false} GetAt(members: seq<Member>, i: nat)
    requires i < |members| && forall j :: i < j < |members| ==> members[j].key != members[i].key
    ensures Get(members, members[i].key) == Some(members[i].value)
  {
    if i < |members| - 1 {
      GetAt(members[..|members| - 1], i);
    }
  }

  /** Plain ASCII text holds no surrogates. */
  lemma LiteralUnmerged(s: string)
    ensures Merge(T(s)) == T(s)
  {
    MergeFixedIff(T(s));
    forall i | 0 <= i < |s| ensures !IsHigh(T(s)[i]) {
    }
  }

  lemma {:induction false} MergeMembersAt(members: seq<Member>, i: nat)
    requires i < |members|
    ensures MergeMembers(members)[i] == MergeMember(members[i])
  {
    if i > 0 {
      MergeMembersAt(members[1..], i - 1);
      assert members[1..][i - 1] == members[i];
    }
  }

  lemma {:induction false} MergeItemsAt(items: seq<Value>, i: nat)
    requires i < |items|
    ensures MergeItems(items)[i] == MergeValue(items[i])
  {
    if i > 0 {
      MergeItemsAt(items[1..], i - 1);
      assert items[1..][i - 1] == items[i];
    }
  }

  /** Looking up key `i` of merged members whose keys are the given literals. */
  lemma GetMerged(members: seq<Member>, names: seq<string>, i: nat)
    requires |names| == |members| && i < |names|
    requires forall j :: 0 <= j < |names| ==> members[j].key == T(names[j])
    requires forall j :: i < j < |names| ==> T(names[j]) != T(names[i])
    ensures Get(MergeMembers(members), T(names[i])) == Some(MergeValue(members[i].value))
  {
    var merged := MergeMembers(members);
    forall j | 0 <= j < |names| ensures merged[j] == Member(T(names[j]), MergeValue(members[j].value)) {
      MergeMembersAt(members, j);
      LiteralUnmerged(names[j]);
    }
    GetAt(merged, i);
  }

  lemma DifferAt(a: string, b: string, k: nat)
    requires |a| != |b| || (k < |a| && a[k] != b[k])
    ensures T(a) != T(b)
  {
    if |a| == |b| {
      assert T(a)[k] == C(a[k]) && T(b)[k] == C(b[k]);
    }
  }

  function IssueNames(): seq<string> {
    ["evidence", "gate", "impact", "next_step", "plain_reason", "recommendation", "why"]
  }

  function ContextNames(): seq<string> {
    ["action_label", "cancel_label", "issues", "recommendation",
     "resolution_label", "resolution_prompt", "summary", "title"]
  }

  lemma IssueGet(i: Issue, k: nat)
    requires k < 7
    ensures Get(MergeMembers(IssueMembers(i)), T(IssueNames()[k])) == Some(MergeValue(IssueMembers(i)[k].value))
  {
    var names := IssueNames();
    forall j | k < j < |names| ensures T(names[j]) != T(names[k]) {
      assert |names[j]| != |names[k]|;
    }
    GetMerged(IssueMembers(i), names, k);
  }

  lemma ContextGet(c: Context, k: nat)
    requires k < 8
    ensures Get(MergeMembers(ContextMembers(c)), T(ContextNames()[k])) == Some(MergeValue(ContextMembers(c)[k].value))
  {
    var names := ContextNames();
    forall j | k < j < |names| ensures T(names[j]) != T(names[k]) {
      DifferAt(names[j], names[k], 0);
    }
    GetMerged(ContextMembers(c), names, k);
  }

  lemma MergeKeepsNonEmpty(s: Text)
    ensures Merge(s) == [] <==> s == []
  {
  }

  lemma TextOrMerged(s: Text, fallback: Text, show: Value -> Text)
    ensures TextOr(Some(MergeValue(Str(s))), fallback, show) == Or(Merge(s), fallback)
    ensures TextOr(Some(MergeValue(Str(s))), [], show) == Merge(s)
  {
  }

  lemma {:induction false} ItemsReread(texts: seq<Text>, items: seq<Value>, show: Value -> Text)
    requires |items| == |texts| && forall k :: 0 <= k < |items| ==> items[k] == Str(Merge(texts[k]))
    ensures NonBlank(items, show) == RereadEvidence(texts)
  {
    hide Merge;
    if texts != [] {
      ItemsReread(texts[1..], items[1..], show);
    }
  }

  lemma EvidenceRereads(texts: seq<Text>, show: Value -> Text)
    ensures NonBlank(MergeItems(StrItems(texts)), show) == RereadEvidence(texts)
  {
    var items := MergeItems(StrItems(texts));
    forall k | 0 <= k < |items| ensures items[k] == Str(Merge(texts[k])) {
      MergeItemsAt(StrItems(texts), k);
    }
    ItemsReread(texts, items, show);
  }

  lemma IssueRereads(i: Issue, show: Value -> Text)
    ensures ReadIssue(MergeMembers(IssueMembers(i)), show) == RereadIssue(i)
  {
    hide Get;
    hide TextOr;
    hide Merge;
    hide NonBlank;
    hide RereadEvidence;
    hide MergeMembers;
    IssueGet(i, 0);
    IssueGet(i, 1);
    IssueGet(i, 2);
    IssueGet(i, 3);
    IssueGet(i, 4);
    IssueGet(i, 5);
    IssueGet(i, 6);
    EvidenceRereads(i.evidence, show);
    TextOrMerged(i.gate, T("Commit blocker"), show);
    TextOrMerged(i.why, T("This gate reported a blocker."), show);
    TextOrMerged(i.recommendation, [], show);
    TextOrMerged(i.plainReason, [], show);
    TextOrMerged(i.impact, [], show);
    TextOrMerged(i.nextStep, [], show);
  }

  lemma {:induction false} IssuesReread(issues: seq<Issue>, rows: seq<Value>, show: Value -> Text)
    requires |rows| == |issues| && forall k :: 0 <= k < |rows| ==> rows[k] == Obj(MergeMembers(IssueMembers(issues[k])))
    ensures ReadIssues(rows, show) == RereadIssues(issues)
  {
    hide ReadIssue;
    hide RereadIssue;
    hide IssueMembers;
    hide MergeMembers;
    if issues != [] {
      IssueRereads(issues[0], show);
      IssuesReread(issues[1..], rows[1..], show);
      assert RereadIssues(issues) == [RereadIssue(issues[0])] + RereadIssues(issues[1..]);
    }
  }

  lemma RowsReread(issues: seq<Issue>, show: Value -> Text)
    ensures ReadIssues(UpTo(MergeItems(IssueItems(issues)), MAX_ISSUES), show) == RereadIssues(UpTo(issues, MAX_ISSUES))
  {
    var merged := MergeItems(IssueItems(issues));
    forall k | 0 <= k < |merged| ensures merged[k] == Obj(MergeMembers(IssueMembers(issues[k]))) {
      MergeItemsAt(IssueItems(issues), k);
    }
    IssuesReread(UpTo(issues, MAX_ISSUES), UpTo(merged, MAX_ISSUES), show);
  }

  lemma ContextRereads(c: Context, show: Value -> Text)
    ensures ReadContext(MergeMembers(ContextMembers(c)), show) == Reread(c)
  {
    hide Get;
    hide TextOr;
    hide Merge;
    hide MergeMembers;
    hide ReadIssues;
    ContextGet(c, 0);
    ContextGet(c, 1);
    ContextGet(c, 2);
    ContextGet(c, 3);
    ContextGet(c, 4);
    ContextGet(c, 5);
    ContextGet(c, 6);
    ContextGet(c, 7);
    RowsReread(c.issues, show);
    TextOrMerged(c.title, T("Thomas commit blocker"), show);
    TextOrMerged(c.summary, T("Thomas found a commit blocker."), show);
    TextOrMerged(c.recommendation, [], show);
    TextOrMerged(c.actionLabel, T("Authorize recommended commit"), show);
    TextOrMerged(c.cancelLabel, T("Back out and talk to Thomas"), show);
    TextOrMerged(c.resolutionLabel, [], show);
    TextOrMerged(c.resolutionPrompt, [], show);
  }

  lemma ContextIsPlain(c: Context)
    ensures Plain(Obj(ContextMembers(c)))
  {
    forall k | 0 <= k < |c.issues| ensures Plain(Obj(IssueMembers(c.issues[k]))) {
    }
  }

  lemma EncodingShape(c: Context)
    ensures |Encoding(c)| >= 2 && Encoding(c)[0] == C('{') && Encoding(c)[|Encoding(c)| - 1] == C('}')
  {
  }

  /** The whole law: an encoding that fits comes back as the reread context; one that does not
      is cut to a strict prefix of an object text, which is no JSON text, and comes back as
      nothing. */
  lemma JsonTrip(c: Context, show: Value -> Text)
    ensures FromJson(ToJson(c), show) == if Fits(c) then Reread(c) else None
  {
    var text, v := Encoding(c), Obj(ContextMembers(c));
    ContextIsPlain(c);
    EncodingShape(c);
    hide Encode;
    hide ContextMembers;
    hide MergeMembers;
    if Fits(c) {
      TrimFixed(text, IsSpaceCode);
      LoadsEncoded(v);
      ContextRereads(c, show);
    } else {
      var cut := ToJson(c);
      TrimIsPrefix(cut, IsSpaceCode);
      var stripped := StripText(cut);
      assert stripped == text[..|stripped|];
      ReadEncoded(v, []);
      assert text + [] == text;
      StrictPrefixIsNoText(text, |stripped|);
    }
  }

  // ---------------------------------------------------------------- exactly when it round-trips

  predicate NoPairsInIssue(i: Issue) {
    && NoPairs(i.gate) && NoPairs(i.why) && NoPairs(i.recommendation) && NoPairs(i.plainReason) && NoPairs(i.impact)
            && NoPairs(i.nextStep)
    && forall k :: 0 <= k < |i.evidence| ==> NoPairs(i.evidence[k])
  }

  predicate NoPairsInContext(c: Context) {
    && NoPairs(c.title) && NoPairs(c.summary) && NoPairs(c.recommendation) && NoPairs(c.actionLabel)
            && NoPairs(c.cancelLabel)
    && NoPairs(c.resolutionLabel) && NoPairs(c.resolutionPrompt)
    && forall k :: 0 <= k < |c.issues| ==> NoPairsInIssue(c.issues[k])
  }

  lemma OrFixedIff(t: Text, fallback: Text)
    requires fallback != []
    ensures Or(Merge(t), fallback) == t <==> t != [] && NoPairs(t)
  {
    MergeFixedIff(t);
    MergeKeepsNonEmpty(t);
  }

  lemma {:induction false} EvidenceFixedIff(texts: seq<Text>)
    ensures RereadEvidence(texts) == texts
            <==> forall k :: 0 <= k < |texts| ==> NoPairs(texts[k]) && StripText(texts[k]) != []
  {
    hide Merge;
    hide NoPairs;
    hide StripText;
    if texts != [] {
      EvidenceFixedIff(texts[1..]);
      MergeFixedIff(texts[0]);
      assert texts == [texts[0]] + texts[1..];
      assert (forall k :: 0 <= k < |texts| ==> NoPairs(texts[k]) && StripText(texts[k]) != []) <==>
             NoPairs(texts[0]) && StripText(texts[0]) != []
             && forall k :: 0 <= k < |texts[1..]| ==> NoPairs(texts[1..][k]) && StripText(texts[1..][k]) != [] by {
        assert forall k :: 0 <= k < |texts| - 1 ==> texts[1..][k] == texts[k + 1];
        assert forall k :: 1 <= k < |texts| ==> texts[k] == texts[1..][k - 1];
      }
      if StripText(Merge(texts[0])) != [] {
        assert RereadEvidence(texts)[1..] == RereadEvidence(texts[1..]);
      }
    }
  }

  lemma LimitedFixedIff(texts: seq<Text>)
    ensures UpTo(RereadEvidence(texts), MAX_EVIDENCE_LINES) == texts <==>
            |texts| <= MAX_EVIDENCE_LINES && RereadEvidence(texts) == texts
  {
    hide RereadEvidence, StripText, Merge;
    var r := RereadEvidence(texts);
    assert |r| <= |texts| && (|r| <= MAX_EVIDENCE_LINES ==> UpTo(r, MAX_EVIDENCE_LINES) == r);
    assert |UpTo(r, MAX_EVIDENCE_LINES)| <= MAX_EVIDENCE_LINES;
  }

  lemma IssueFixedIff(i: Issue)
    ensures RereadIssue(i) == i <==> CanonicalIssue(i) && NoPairsInIssue(i)
  {
    OrFixedIff(i.gate, T("Commit blocker"));
    OrFixedIff(i.why, T("This gate reported a blocker."));
    LimitedFixedIff(i.evidence);
    EvidenceFixedIff(i.evidence);
    MergeFixedIff(i.recommendation);
    MergeFixedIff(i.plainReason);
    MergeFixedIff(i.impact);
    MergeFixedIff(i.nextStep);
    hide Merge;
    hide NoPairs;
    hide StripText;
    hide RereadEvidence;
  }

  lemma IssuesFixedIff(issues: seq<Issue>)
    ensures RereadIssues(UpTo(issues, MAX_ISSUES)) == issues <==>
            |issues| <= MAX_ISSUES
            && forall k :: 0 <= k < |issues| ==> CanonicalIssue(issues[k]) && NoPairsInIssue(issues[k])
  {
    forall k | 0 <= k < |issues|
      ensures RereadIssue(issues[k]) == issues[k] <==> CanonicalIssue(issues[k]) && NoPairsInIssue(issues[k])
    {
      IssueFixedIff(issues[k]);
    }
    hide RereadIssue;
    hide CanonicalIssue;
    hide NoPairsInIssue;
    if RereadIssues(UpTo(issues, MAX_ISSUES)) == issues {
      forall k | 0 <= k < |issues| ensures RereadIssue(issues[k]) == issues[k] {
        assert RereadIssues(UpTo(issues, MAX_ISSUES))[k] == RereadIssue(issues[k]);
      }
    }
  }

  lemma ContextFixedIff(c: Context)
    ensures Reread(c) == Some(c) <==> Canonical(c) && NoPairsInContext(c)
  {
    OrFixedIff(c.title, T("Thomas commit blocker"));
    OrFixedIff(c.summary, T("Thomas found a commit blocker."));
    OrFixedIff(c.actionLabel, T("Authorize recommended commit"));
    OrFixedIff(c.cancelLabel, T("Back out and talk to Thomas"));
    MergeFixedIff(c.recommendation);
    MergeFixedIff(c.resolutionLabel);
    MergeFixedIff(c.resolutionPrompt);
    IssuesFixedIff(c.issues);
    hide Merge;
    hide NoPairs;
    hide NoPairsInIssue;
    hide CanonicalIssue;
    hide RereadIssue;
  }

  /** A context survives the trip unchanged exactly when its encoding fits, it holds nothing
      the reader replaces or drops, and none of its texts holds a surrogate pair in two halves. */
  lemma RoundTripIff(c: Context, show: Value -> Text)
    ensures FromJson(ToJson(c), show) == Some(c) <==> Fits(c) && Canonical(c) && NoPairsInContext(c)
  {
    JsonTrip(c, show);
    ContextFixedIff(c);
    hide Reread;
    hide Canonical;
    hide NoPairsInContext;
    hide Fits;
  }

  /** So a context built from gate output, with non-empty default labels and ordinary text, comes
      back equal when it fits, and as nothing when it does not. */
  lemma BuiltContextRoundTrips(rules: Rules, guidance: Guidance, raw: seq<Text>, blocks: seq<Block>,
                               actionLabel: Text, cancelLabel: Text, show: Value -> Text)
    requires CleanStrips(rules) && actionLabel != [] && cancelLabel != []
    requires forall k :: 0 <= k < |blocks| ==> blocks[k].gate != []
    requires NoPairsInContext(ContextOf(rules, guidance, raw, blocks, actionLabel, cancelLabel))
    ensures var c := ContextOf(rules, guidance, raw, blocks, actionLabel, cancelLabel);
            FromJson(ToJson(c), show) == if Fits(c) then Some(c) else None
  {
    hide *;
    var c := ContextOf(rules, guidance, raw, blocks, actionLabel, cancelLabel);
    BuiltContextIsCanonical(rules, guidance, raw, blocks, actionLabel, cancelLabel);
    RoundTripIff(c, show);
    JsonTrip(c, show);
  }

  // ---------------------------------------------------------------- a context that comes back changed

  /** A length no encoding exceeds: at most twelve characters for each of a string. */
  function Weight(v: Value): nat
    decreases v, 1
  {
    match v
    case Null => 4
    case Bool(_) => 5
    case Num(digits) => |digits|
    case Str(s) => 12 * |s| + 2
    case Arr(items) => 2 + ItemsWeight(items)
    case Obj(members) => 2 + MembersWeight(members)
  }

  function ItemsWeight(items: seq<Value>): nat
    decreases items, 0
  {
    if items == [] then 0 else Weight(items[0]) + 2 + ItemsWeight(items[1..])
  }

  function MembersWeight(members: seq<Member>): nat
    decreases members, 0
  {
    if members == [] then 0 else MemberWeight(members[0]) + MembersWeight(members[1..])
  }

  function MemberWeight(m: Member): nat
    decreases m, 2
  {
    12 * |m.key| + 6 + Weight(m.value)
  }

  lemma {:induction false} CharsWeight(s: Text)
    ensures |EncodeChars(s)| <= 12 * |s|
  {
    if s != [] { CharsWeight(s[1..]); }
  }

  lemma {:induction false} WeightBounds(v: Value)
    ensures |Encode(v)| <= Weight(v)
    decreases v, 1
  {
    match v
    case Str(s) => CharsWeight(s);
    case Arr(items) => ItemsBound(items);
    case Obj(members) => MembersBound(members);
    case _ =>
  }

  lemma {:induction false} ItemsBound(items: seq<Value>)
    ensures |EncodeItems(items)| <= ItemsWeight(items)
    decreases items, 0
  {
    if items != [] {
      WeightBounds(items[0]);
      ItemsBound(items[1..]);
    }
  }

  lemma {:induction false} MembersBound(members: seq<Member>)
    ensures |EncodeMembers(members)| <= MembersWeight(members)
    decreases members, 0
  {
    if members != [] {
      var m := members[0];
      CharsWeight(m.key);
      WeightBounds(m.value);
      MembersBound(members[1..]);
    }
  }

  /** An emoji written as the two halves of its surrogate pair. */
  function Halves(): Text { [0xD83D, 0xDE00] }

  function SampleIssue(): Issue { Issue(T("g"), T("w"), [], [], [], [], []) }

  /** A context with that title and otherwise ordinary. */
  function Sample(): Context { Context(Halves(), T("s"), [], [SampleIssue()], T("a"), T("b"), [], []) }

  lemma ConsWeight(m: Member, rest: seq<Member>)
    ensures MembersWeight([m] + rest) == MemberWeight(m) + MembersWeight(rest)
  {
    assert ([m] + rest)[1..] == rest;
  }

  lemma SevenWeight(a: Member, b: Member, c: Member, d: Member, e: Member, f: Member, g: Member)
    ensures MembersWeight([a, b, c, d, e, f, g])
            == MemberWeight(a) + MemberWeight(b) + MemberWeight(c) + MemberWeight(d)
               + MemberWeight(e) + MemberWeight(f) + MemberWeight(g)
  {
    hide MemberWeight;
    ConsWeight(g, []);
    ConsWeight(f, [g]);
    ConsWeight(e, [f, g]);
    ConsWeight(d, [e, f, g]);
    ConsWeight(c, [d, e, f, g]);
    ConsWeight(b, [c, d, e, f, g]);
    ConsWeight(a, [b, c, d, e, f, g]);
    assert [g] + [] == [g] && [f] + [g] == [f, g] && [e] + [f, g] == [e, f, g];
    assert [d] + [e, f, g] == [d, e, f, g] && [c] + [d, e, f, g] == [c, d, e, f, g];
    assert [b] + [c, d, e, f, g] == [b, c, d, e, f, g] && [a] + [b, c, d, e, f, g] == [a, b, c, d, e, f, g];
  }

  lemma ShortMember(key: Text, value: Value)
    requires |key| <= 20 && ((value.Str? && |value.s| <= 2) || value == Arr([]))
    ensures MemberWeight(Member(key, value)) <= 272
  {
  }

  lemma IssueMembersShort()
    ensures MembersWeight(IssueMembers(SampleIssue())) <= 7 * 272
  {
    hide T, MemberWeight, MembersWeight;
    var ms := IssueMembers(SampleIssue());
    assert StrItems([]) == [];
    ShortMember(ms[0].key, ms[0].value);
    ShortMember(ms[1].key, ms[1].value);
    ShortMember(ms[2].key, ms[2].value);
    ShortMember(ms[3].key, ms[3].value);
    ShortMember(ms[4].key, ms[4].value);
    ShortMember(ms[5].key, ms[5].value);
    ShortMember(ms[6].key, ms[6].value);
    SevenWeight(ms[0], ms[1], ms[2], ms[3], ms[4], ms[5], ms[6]);
  }

  lemma OneItemWeight(members: seq<Member>)
    ensures Weight(Arr([Obj(members)])) == 6 + MembersWeight(members)
  {
    hide MembersWeight;
    var items := [Obj(members)];
    assert items[1..] == [];
    assert ItemsWeight(items) == Weight(items[0]) + 2;
  }

  lemma LongMember(key: Text, value: Value)
    requires |key| <= 20 && Weight(value) <= 2000
    ensures MemberWeight(Member(key, value)) <= 2246
  {
    hide Weight;
  }

  lemma SampleMembersShort()
    ensures MembersWeight(ContextMembers(Sample())) <= 7 * 272 + 2246
  {
    hide T, MemberWeight, MembersWeight, Weight, IssueMembers;
    var ms := ContextMembers(Sample());
    IssueMembersShort();
    OneItemWeight(IssueMembers(SampleIssue()));
    assert IssueItems([SampleIssue()]) == [Obj(IssueMembers(SampleIssue()))];
    ShortMember(ms[0].key, ms[0].value);
    ShortMember(ms[1].key, ms[1].value);
    LongMember(ms[2].key, ms[2].value);
    ShortMember(ms[3].key, ms[3].value);
    ShortMember(ms[4].key, ms[4].value);
    ShortMember(ms[5].key, ms[5].value);
    ShortMember(ms[6].key, ms[6].value);
    ShortMember(ms[7].key, ms[7].value);
    var tail := [ms[1], ms[2], ms[3], ms[4], ms[5], ms[6], ms[7]];
    SevenWeight(ms[1], ms[2], ms[3], ms[4], ms[5], ms[6], ms[7]);
    ConsWeight(ms[0], tail);
    assert ms == [ms[0]] + tail;
  }

  lemma SampleFits()
    ensures Fits(Sample())
  {
    SampleMembersShort();
    var v := Obj(ContextMembers(Sample()));
    WeightBounds(v);
    hide ContextMembers, Sample, MembersWeight, Encode;
    assert Weight(v) == 2 + MembersWeight(ContextMembers(Sample()));
  }

  /** A split pair does come back as one character: this context fits and holds nothing else the
      reader changes, and yet what is read back is another context. */
  lemma SplitPairComesBackMerged(show: Value -> Text)
    ensures Fits(Sample()) && Canonical(Sample())
    ensures FromJson(ToJson(Sample()), show) == Some(Sample().(title := [0x1F600]))
    ensures FromJson(ToJson(Sample()), show) != Some(Sample())
  {
    SampleFits();
    JsonTrip(Sample(), show);
    SampleReread();
  }

  lemma SampleReread()
    ensures Canonical(Sample()) && Reread(Sample()) == Some(Sample().(title := [0x1F600]))
  {
    hide T, Merge, NoPairs;
    var c := Sample();
    var d := c.(title := [0x1F600]);
    ShortTextsHaveNoPairs();
    assert NoPairsInIssue(SampleIssue());
    ContextFixedIff(d);
    HalvesMerge();
    hide RereadIssues;
  }

  lemma ShortTextsHaveNoPairs()
    ensures forall t: Text :: |t| <= 1 ==> NoPairs(t)
  {
  }

  lemma HalvesMerge()
    ensures Merge(Halves()) == [0x1F600]
  {
    assert Halves()[2..] == [];
  }
}
