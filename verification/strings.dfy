/** String operations shared by the modelled scripts: splitting and joining on a
    separator, trimming, ASCII lower-casing, and the code-point order used by `sorted`. */
module Strings {

  datatype Option<+T> = None | Some(value: T)

  /** `s.endswith(suffix)`. Prefix tests use the built-in `prefix <= s`. */
  predicate EndsWith(s: string, suffix: string) {
    |suffix| <= |s| && s[|s| - |suffix|..] == suffix
  }

  /** `needle in hay`, position by position. */
  predicate OccursAt(needle: string, hay: string, i: int) {
    0 <= i && i + |needle| <= |hay| && hay[i..i + |needle|] == needle
  }

  predicate Contains(needle: string, hay: string) {
    exists i :: 0 <= i <= |hay| && OccursAt(needle, hay, i)
  }

  ghost predicate Occurs(needle: string, hay: string) {
    exists i :: OccursAt(needle, hay, i)
  }

  lemma PartOccurs(before: string, part: string, after: string)
    ensures Occurs(part, before + part + after)
  {
    assert OccursAt(part, before + part + after, |before|);
  }

  /** `s.split(sep)` for a one-character separator. */
  function Split(s: string, sep: char): (parts: seq<string>)
    ensures |parts| >= 1
    ensures forall i :: 0 <= i < |parts| ==> sep !in parts[i]
    ensures Join(parts, sep) == s
  {
    if s == "" then
      [""]
    else
      var rest := Split(s[1..], sep);
      if s[0] == sep then [""] + rest else [[s[0]] + rest[0]] + rest[1..]
  }

  /** `sep.join(parts)`. */
  function Join(parts: seq<string>, sep: char): string {
    if |parts| == 0 then ""
    else if |parts| == 1 then parts[0]
    else parts[0] + [sep] + Join(parts[1..], sep)
  }

  ghost predicate SepFree(parts: seq<string>, sep: char) {
    forall i :: 0 <= i < |parts| ==> sep !in parts[i]
  }

  lemma {:induction false} SplitSepFree(s: string, sep: char)
    requires sep !in s
    ensures Split(s, sep) == [s]
  {
    if s != "" { SplitSepFree(s[1..], sep); }
  }

  lemma {:induction false} SplitCons(p: string, rest: string, sep: char)
    requires sep !in p
    ensures Split(p + [sep] + rest, sep) == [p] + Split(rest, sep)
  {
    var s := p + [sep] + rest;
    if p == "" {
      assert s[1..] == rest;
    } else {
      SplitCons(p[1..], rest, sep);
      assert s[1..] == p[1..] + [sep] + rest;
      assert s[0] == p[0] && p == [p[0]] + p[1..];
      assert ([p[1..]] + Split(rest, sep))[1..] == Split(rest, sep);
    }
  }

  /** Splitting undoes joining when no part holds the separator. */
  lemma {:induction false} SplitJoin(parts: seq<string>, sep: char)
    requires |parts| >= 1 && SepFree(parts, sep)
    ensures Split(Join(parts, sep), sep) == parts
  {
    if |parts| == 1 {
      SplitSepFree(parts[0], sep);
    } else {
      SplitJoin(parts[1..], sep);
      SplitCons(parts[0], Join(parts[1..], sep), sep);
      assert parts == [parts[0]] + parts[1..];
    }
  }

  lemma {:induction false} JoinConcat(a: seq<string>, b: seq<string>, sep: char)
    requires |a| >= 1 && |b| >= 1
    ensures Join(a + b, sep) == Join(a, sep) + [sep] + Join(b, sep)
  {
    if |a| == 1 {
      assert (a + b)[1..] == b;
    } else {
      JoinConcat(a[1..], b, sep);
      assert (a + b)[1..] == a[1..] + b;
    }
  }

  /** Splitting at one separator splits both sides. */
  lemma SplitConcat(a: string, b: string, sep: char)
    ensures Split(a + [sep] + b, sep) == Split(a, sep) + Split(b, sep)
  {
    var parts := Split(a, sep) + Split(b, sep);
    JoinConcat(Split(a, sep), Split(b, sep), sep);
    assert Join(parts, sep) == a + [sep] + b;
    SplitJoin(parts, sep);
  }

  lemma BelowSplitsLonger(a: string, b: string, sep: char)
    requires b + [sep] <= a
    ensures Split(b, sep) <= Split(a, sep)
  {
    hide Split;
    var rest := a[|b| + 1..];
    SplitConcat(b, rest, sep);
    assert b + [sep] + rest == a;
  }

  /** One string is another, or goes on from it with a separator, exactly when its parts start with the
      other's. */
  lemma PrefixIsPartPrefix(a: string, b: string, sep: char)
    ensures (a == b || b + [sep] <= a) <==> Split(b, sep) <= Split(a, sep)
  {
    if b + [sep] <= a {
      BelowSplitsLonger(a, b, sep);
    } else if Split(b, sep) <= Split(a, sep) {
      var longer, shorter := Split(a, sep), Split(b, sep);
      JoinOfPrefix(longer, shorter, sep);
      assert Join(longer, sep) == a && Join(shorter, sep) == b;
    }
  }

  lemma JoinOfPrefix(longer: seq<string>, shorter: seq<string>, sep: char)
    requires shorter != [] && shorter <= longer
    ensures Join(longer, sep) == Join(shorter, sep) || Join(shorter, sep) + [sep] <= Join(longer, sep)
  {
    var tail := longer[|shorter|..];
    assert longer == shorter + tail;
    if tail != [] {
      JoinConcat(shorter, tail, sep);
    }
  }

  lemma {:induction false} JoinSepFree(parts: seq<string>, sep: char, other: char)
    requires SepFree(parts, other) && other != sep
    ensures other !in Join(parts, sep)
  {
    if |parts| > 1 { JoinSepFree(parts[1..], sep, other); }
  }

  // ---------------------------------------------------------------- trimming

  /** The characters both `str.strip()` and the regex class `\s` remove, up to U+00A0. */
  predicate IsSpace(c: char) {
    var n := c as int;
    n == 32 || 9 <= n <= 13 || 28 <= n <= 31 || n == 0x85 || n == 0xA0
  }

  /** Of the ASCII characters these and no others are white space. */
  lemma AsciiSpaces(c: char)
    requires c as int < 128
    ensures IsSpace(c) <==> c in {' ', '\t', '\n', '\r', 11 as char, 12 as char, 28 as char, 29 as char, 30 as char,
                                  31 as char}
  {
  }

  /** `s` less its longest prefix of dropped elements. */
  function TrimLeft<T>(s: seq<T>, drop: T -> bool): (r: seq<T>)
    ensures |r| <= |s| && r == s[|s| - |r|..]
    ensures r != [] ==> !drop(r[0])
    ensures forall i :: 0 <= i < |s| - |r| ==> drop(s[i])
  {
    if s != [] && drop(s[0]) then
      var r := TrimLeft(s[1..], drop);
      assert s[1..][|s[1..]| - |r|..] == s[|s| - |r|..];
      r
    else s
  }

  function TrimRight<T>(s: seq<T>, drop: T -> bool): (r: seq<T>)
    ensures |r| <= |s| && r == s[..|r|]
    ensures r != [] ==> !drop(r[|r| - 1])
    ensures forall i :: |r| <= i < |s| ==> drop(s[i])
  {
    if s != [] && drop(s[|s| - 1]) then TrimRight(s[..|s| - 1], drop) else s
  }

  function Trim<T>(s: seq<T>, drop: T -> bool): (r: seq<T>)
    ensures r != [] ==> !drop(r[0]) && !drop(r[|r| - 1])
    ensures r == [] <==> forall i :: 0 <= i < |s| ==> drop(s[i])
    ensures |r| <= |s|
  {
    TrimRight(TrimLeft(s, drop), drop)
  }

  /** What neither starts nor ends with a dropped element is left alone. */
  lemma TrimFixed<T>(s: seq<T>, drop: T -> bool)
    requires s != [] ==> !drop(s[0]) && !drop(s[|s| - 1])
    ensures Trim(s, drop) == s
  {
  }

  /** Trimming what starts with a kept element gives a non-empty prefix of it. */
  lemma TrimIsPrefix<T>(s: seq<T>, drop: T -> bool)
    requires s != [] && !drop(s[0])
    ensures Trim(s, drop) != [] && Trim(s, drop) <= s
  {
    assert TrimLeft(s, drop) == s;
  }

  /** `s.strip()`. */
  function Strip(s: string): string { Trim(s, IsSpace) }

  /** Stripping is idempotent. */
  lemma StripIdempotent(s: string)
    ensures Strip(Strip(s)) == Strip(s)
  {
    TrimFixed(Strip(s), IsSpace);
  }

  lemma StripBlankFirst(s: string)
    ensures Strip(" " + s) == Strip(s)
  {
    assert (" " + s)[1..] == s;
  }

  lemma StripFixed(s: string)
    requires s != "" ==> !IsSpace(s[0]) && !IsSpace(s[|s| - 1])
    ensures Strip(s) == s
  {
    TrimFixed(s, IsSpace);
  }

  predicate NotSpace(c: char) { !IsSpace(c) }

  /** `s.split()`. */
  function Words(s: string): (words: seq<string>)
    ensures forall i :: 0 <= i < |words| ==> words[i] != "" && forall c :: c in words[i] ==> !IsSpace(c)
    ensures words == [] <==> forall i :: 0 <= i < |s| ==> IsSpace(s[i])
    decreases |s|
  {
    if s == "" then []
    else if IsSpace(s[0]) then Words(s[1..])
    else
      var rest := TrimLeft(s, NotSpace);
      [s[..|s| - |rest|]] + Words(rest)
  }

  lemma TrimLeftStops(a: string, c: char, b: string)
    requires IsSpace(c)
    ensures TrimLeft(a + [c] + b, NotSpace) == TrimLeft(a, NotSpace) + [c] + b
    decreases |a|
  {
    var s := a + [c] + b;
    if a == "" {
      assert s[0] == c;
    } else {
      assert s[1..] == a[1..] + [c] + b;
      if NotSpace(a[0]) { TrimLeftStops(a[1..], c, b); }
    }
  }

  /** A text without white space is one word. */
  lemma {:induction false} WordsOfWord(w: string)
    requires w != "" && forall c :: c in w ==> !IsSpace(c)
    ensures Words(w) == [w]
  {
    hide IsSpace;
    var rest := TrimLeft(w, NotSpace);
    assert forall c :: c in rest ==> c in w;
    assert rest == "";
    assert w[..|w| - 0] == w;
  }

  /** Words end at every white space character and nowhere else. */
  lemma {:induction false} WordsSplit(a: string, c: char, b: string)
    requires IsSpace(c)
    ensures Words(a + [c] + b) == Words(a) + Words(b)
    decreases |a|
  {
    hide IsSpace, Words, TrimLeft;
    var s := a + [c] + b;
    if a == "" {
      NoWordsInNothing();
      WordsSkip(s);
      assert s[1..] == b;
    } else if IsSpace(a[0]) {
      WordsSkip(s);
      WordsSkip(a);
      assert s[1..] == a[1..] + [c] + b;
      WordsSplit(a[1..], c, b);
    } else {
      var rest := TrimLeft(a, NotSpace);
      TrimLeftStops(a, c, b);
      WordsFirst(a);
      WordsFirst(s);
      WordsSplit(rest, c, b);
      assert s[..|s| - |rest + [c] + b|] == a[..|a| - |rest|];
    }
  }

  lemma NoWordsInNothing()
    ensures Words("") == []
  {
  }

  lemma WordsSkip(s: string)
    requires s != "" && IsSpace(s[0])
    ensures Words(s) == Words(s[1..])
  {
  }

  lemma WordsFirst(s: string)
    requires s != "" && !IsSpace(s[0])
    ensures var rest := TrimLeft(s, NotSpace); |rest| < |s| && Words(s) == [s[..|s| - |rest|]] + Words(rest)
  {
  }

  /** A word and a white space character in front of a text are one more word. */
  lemma WordThenBlank(w: string, blank: char, s: string)
    requires w != "" && (forall c :: c in w ==> !IsSpace(c)) && IsSpace(blank)
    ensures Words(w + [blank] + s) == [w] + Words(s)
  {
    hide IsSpace, Words;
    WordsOfWord(w);
    WordsSplit(w, blank, s);
  }

  /** Stripping takes away nothing but white space at the two ends. */
  lemma StripIsMiddle(s: string)
    ensures exists a, b :: 0 <= a <= b <= |s| && Strip(s) == s[a..b]
              && (forall i :: 0 <= i < a || b <= i < |s| ==> IsSpace(s[i]))
  {
    hide IsSpace, TrimLeft, TrimRight;
    var left := TrimLeft(s, IsSpace);
    var r := TrimRight(left, IsSpace);
    assert Strip(s) == r;
    hide Strip;
    var a, b := |s| - |left|, |s| - |left| + |r|;
    assert left == s[a..] && r == left[..|r|];
    assert r == s[a..b];
    forall i | 0 <= i < a || b <= i < |s| ensures IsSpace(s[i]) {
      if b <= i { assert s[i] == left[i - a]; }
    }
  }

  lemma {:induction false} WordsAfterBlanks(blanks: string, s: string)
    requires forall c :: c in blanks ==> IsSpace(c)
    ensures Words(blanks + s) == Words(s)
  {
    hide IsSpace;
    if blanks == "" {
      assert blanks + s == s;
    } else {
      assert (blanks + s)[1..] == blanks[1..] + s;
      WordsAfterBlanks(blanks[1..], s);
    }
  }

  lemma WordsBeforeBlanks(s: string, blanks: string)
    requires forall c :: c in blanks ==> IsSpace(c)
    ensures Words(s + blanks) == Words(s)
  {
    hide IsSpace, Words;
    if blanks == "" {
      assert s + blanks == s;
    } else {
      assert s + blanks == s + [blanks[0]] + blanks[1..];
      WordsSplit(s, blanks[0], blanks[1..]);
      NoWordsInBlanks(blanks[1..]);
    }
  }

  lemma NoWordsInBlanks(blanks: string)
    requires forall c :: c in blanks ==> IsSpace(c)
    ensures Words(blanks) == []
  {
    hide IsSpace;
  }

  lemma WordsOfStripped(s: string)
    ensures Words(Strip(s)) == Words(s)
  {
    StripIsMiddle(s);
    hide IsSpace, Strip, Words;
    var a, b :| 0 <= a <= b <= |s| && Strip(s) == s[a..b]
                && (forall i :: 0 <= i < a || b <= i < |s| ==> IsSpace(s[i]));
    assert s == s[..a] + (s[a..b] + s[b..]);
    WordsAfterBlanks(s[..a], s[a..b] + s[b..]);
    WordsBeforeBlanks(s[a..b], s[b..]);
  }

  // ---------------------------------------------------------------- elements kept in order

  /** `r` is what stands in `s` at these places, one after the other. */
  ghost predicate Picks<T>(r: seq<T>, s: seq<T>, at: seq<nat>) {
    && |at| == |r| && (forall k :: 0 <= k < |at| ==> at[k] < |s| && s[at[k]] == r[k])
    && forall j, k :: 0 <= j < k < |at| ==> at[j] < at[k]
  }

  /** `r` is `s` with exactly the elements that `keep` accepts left in, in their order. */
  ghost predicate Filtered<T>(r: seq<T>, s: seq<T>, keep: T -> bool) {
    exists at :: Picks(r, s, at) && forall i :: 0 <= i < |s| ==> (i in at <==> keep(s[i]))
  }

  lemma FilteredNothing<T>(keep: T -> bool)
    ensures Filtered([], [], keep)
  {
    assert Picks<T>([], [], []);
  }

  function Moved(at: seq<nat>, off: nat): (moved: seq<nat>)
    ensures |moved| == |at| && forall k :: 0 <= k < |at| ==> moved[k] == at[k] + off
  {
    seq(|at|, k requires 0 <= k < |at| => at[k] + off)
  }

  lemma MovedHolds(at: seq<nat>, off: nat, i: nat)
    ensures i in Moved(at, off) <==> i >= off && i - off in at
  {
    if i >= off && i - off in at {
      var k :| 0 <= k < |at| && at[k] == i - off;
      assert Moved(at, off)[k] == i;
    }
  }

  lemma PicksConcat<T>(r: seq<T>, s: seq<T>, at: seq<nat>, q: seq<T>, t: seq<T>, more: seq<nat>)
    requires Picks(r, s, at) && Picks(q, t, more)
    ensures Picks(r + q, s + t, at + Moved(more, |s|))
  {
    var all := at + Moved(more, |s|);
    forall k | 0 <= k < |all| ensures all[k] < |s + t| && (s + t)[all[k]] == (r + q)[k] {
      if k >= |at| { assert all[k] == more[k - |at|] + |s|; }
    }
  }

  lemma FilteredConcat<T>(r: seq<T>, s: seq<T>, q: seq<T>, t: seq<T>, keep: T -> bool)
    requires Filtered(r, s, keep) && Filtered(q, t, keep)
    ensures Filtered(r + q, s + t, keep)
  {
    var at :| Picks(r, s, at) && forall i :: 0 <= i < |s| ==> (i in at <==> keep(s[i]));
    var more :| Picks(q, t, more) && forall i :: 0 <= i < |t| ==> (i in more <==> keep(t[i]));
    var all := at + Moved(more, |s|);
    PicksConcat(r, s, at, q, t, more);
    forall i | 0 <= i < |s + t| ensures i in all <==> keep((s + t)[i]) {
      MovedHolds(more, |s|, i);
      assert i >= |s| ==> i !in at;
    }
  }

  lemma FilteredOne<T>(x: T, keep: T -> bool)
    ensures Filtered(if keep(x) then [x] else [], [x], keep)
  {
    if keep(x) {
      assert Picks([x], [x], [0]);
    } else {
      assert Picks([], [x], []);
    }
  }

  lemma FilteredCons<T>(x: T, r: seq<T>, s: seq<T>, keep: T -> bool)
    requires Filtered(r, s, keep)
    ensures Filtered(if keep(x) then [x] + r else r, [x] + s, keep)
  {
    hide Filtered;
    FilteredOne(x, keep);
    FilteredConcat(if keep(x) then [x] else [], [x], r, s, keep);
    assert [] + r == r;
  }

  lemma FilteredSnoc<T>(r: seq<T>, s: seq<T>, x: T, keep: T -> bool)
    requires Filtered(r, s, keep)
    ensures Filtered(if keep(x) then r + [x] else r, s + [x], keep)
  {
    hide Filtered;
    FilteredOne(x, keep);
    FilteredConcat(r, s, if keep(x) then [x] else [], [x], keep);
    assert r + [] == r;
  }

  /** Tests that agree on the elements filter alike. */
  lemma FilteredAlike<T>(r: seq<T>, s: seq<T>, keep: T -> bool, other: T -> bool)
    requires Filtered(r, s, keep) && forall x :: x in s ==> keep(x) == other(x)
    ensures Filtered(r, s, other)
  {
    var at :| Picks(r, s, at) && forall i :: 0 <= i < |s| ==> (i in at <==> keep(s[i]));
    assert forall i :: 0 <= i < |s| ==> (i in at <==> other(s[i]));
  }

  /** The places in the whole of what stands at these places of a part. */
  function Through(more: seq<nat>, at: seq<nat>): (all: seq<nat>)
    requires forall k :: 0 <= k < |more| ==> more[k] < |at|
    ensures |all| == |more| && forall k :: 0 <= k < |more| ==> all[k] == at[more[k]]
  {
    seq(|more|, k requires 0 <= k < |more| && more[k] < |at| => at[more[k]])
  }

  lemma ThroughHolds(more: seq<nat>, at: seq<nat>, i: nat)
    requires forall k :: 0 <= k < |more| ==> more[k] < |at|
    ensures i in Through(more, at) <==> exists k :: 0 <= k < |at| && at[k] == i && k in more
  {
    if k :| 0 <= k < |at| && at[k] == i && k in more {
      var j :| 0 <= j < |more| && more[j] == k;
      assert Through(more, at)[j] == i;
    }
    if i in Through(more, at) {
      var j :| 0 <= j < |more| && Through(more, at)[j] == i;
      assert at[more[j]] == i && more[j] in more;
    }
  }

  lemma PicksThrough<T>(q: seq<T>, r: seq<T>, s: seq<T>, more: seq<nat>, at: seq<nat>)
    requires Picks(q, r, more) && Picks(r, s, at)
    ensures Picks(q, s, Through(more, at))
  {
  }

  /** Filtering what was filtered is filtering by both tests. */
  lemma FilteredTwice<T>(q: seq<T>, r: seq<T>, s: seq<T>, second: T -> bool, first: T -> bool, both: T -> bool)
    requires Filtered(q, r, second) && Filtered(r, s, first)
    requires forall x :: x in s ==> both(x) == (first(x) && second(x))
    ensures Filtered(q, s, both)
  {
    var at :| Picks(r, s, at) && forall i :: 0 <= i < |s| ==> (i in at <==> first(s[i]));
    var more :| Picks(q, r, more) && forall i :: 0 <= i < |r| ==> (i in more <==> second(r[i]));
    PicksThrough(q, r, s, more, at);
    forall i | 0 <= i < |s| ensures i in Through(more, at) <==> both(s[i]) {
      ThroughHolds(more, at, i);
      assert s[i] in s;
    }
  }

  /** What is as long as the whole is the whole. */
  lemma FilteredWhole<T>(r: seq<T>, s: seq<T>, keep: T -> bool)
    requires Filtered(r, s, keep) && |r| == |s|
    ensures r == s
  {
    var at :| Picks(r, s, at) && forall i :: 0 <= i < |s| ==> (i in at <==> keep(s[i]));
    forall k | 0 <= k < |r| ensures at[k] == k { IncreasingFits(at, |s|, k); }
  }

  lemma {:induction false} IncreasingFits(at: seq<nat>, n: nat, k: nat)
    requires (forall j, k :: 0 <= j < k < |at| ==> at[j] < at[k]) && (forall k :: 0 <= k < |at| ==> at[k] < n)
    requires k < |at| <= n
    ensures k <= at[k] <= n - |at| + k
  {
    IncreasingStarts(at, k);
    IncreasingEnds(at, n, k);
  }

  lemma {:induction false} IncreasingStarts(at: seq<nat>, k: nat)
    requires k < |at| && forall j, k :: 0 <= j < k < |at| ==> at[j] < at[k]
    ensures at[k] >= k
  {
    if k > 0 { IncreasingStarts(at, k - 1); }
  }

  lemma {:induction false} IncreasingEnds(at: seq<nat>, n: nat, k: nat)
    requires k < |at| && (forall j, k :: 0 <= j < k < |at| ==> at[j] < at[k])
    requires forall k :: 0 <= k < |at| ==> at[k] < n
    ensures at[k] <= n - |at| + k
    decreases |at| - k
  {
    if k + 1 < |at| { IncreasingEnds(at, n, k + 1); }
  }

  lemma FilteredAll<T>(s: seq<T>, keep: T -> bool)
    requires forall x :: x in s ==> keep(x)
    ensures Filtered(s, s, keep)
  {
    var at := seq(|s|, i requires 0 <= i < |s| => i);
    assert Picks(s, s, at);
    forall i | 0 <= i < |s| ensures i in at {
      assert at[i] == i;
    }
  }

  // ---------------------------------------------------------------- case

  function LowerChar(c: char): char {
    if 'A' <= c <= 'Z' then ((c as int) + 32) as char else c
  }

  /** `s.lower()` on ASCII letters. */
  function Lower(s: string): (r: string)
    ensures |r| == |s|
    ensures forall i :: 0 <= i < |s| ==> r[i] == LowerChar(s[i])
  {
    if s == "" then "" else [LowerChar(s[0])] + Lower(s[1..])
  }

  lemma LowerIdempotent(s: string)
    ensures Lower(Lower(s)) == Lower(s)
  {
    forall i | 0 <= i < |s| ensures Lower(Lower(s))[i] == Lower(s)[i] {
      assert LowerChar(LowerChar(s[i])) == LowerChar(s[i]);
    }
  }

  // ---------------------------------------------------------------- order

  /** Code-point order, the order Python compares strings in. */
  predicate Leq(a: string, b: string) {
    a == "" || (b != "" && (a[0] < b[0] || (a[0] == b[0] && Leq(a[1..], b[1..]))))
  }

  /** One string comes before another exactly when it is a prefix of it, or has the smaller
      character where they first differ. */
  lemma {:induction false} LeqIff(a: string, b: string)
    ensures Leq(a, b) <==> a <= b || exists k :: 0 <= k < |a| && k < |b| && a[..k] == b[..k] && a[k] < b[k]
  {
    if a != "" && b != "" {
      LeqIff(a[1..], b[1..]);
      assert a[0] == b[0] ==> (a <= b <==> a[1..] <= b[1..]);
      if a[0] == b[0] {
        if k :| 0 <= k < |a[1..]| && k < |b[1..]| && a[1..][..k] == b[1..][..k] && a[1..][k] < b[1..][k] {
          assert a[..k + 1] == [a[0]] + a[1..][..k] && b[..k + 1] == [b[0]] + b[1..][..k];
          assert a[k + 1] < b[k + 1];
        }
        if k :| 0 <= k < |a| && k < |b| && a[..k] == b[..k] && a[k] < b[k] {
          assert a[1..][..k - 1] == a[..k][1..] && b[1..][..k - 1] == b[..k][1..];
          assert a[1..][k - 1] < b[1..][k - 1];
        }
      } else if a[0] < b[0] {
        assert a[..0] == b[..0];
      } else {
        forall k | 0 <= k < |a| && k < |b| ensures !(a[..k] == b[..k] && a[k] < b[k]) {
          assert k > 0 ==> a[..k][0] == a[0] && b[..k][0] == b[0];
        }
      }
    }
  }

  lemma {:induction false} LeqAntisymmetric(a: string, b: string)
    requires Leq(a, b) && Leq(b, a)
    ensures a == b
  {
    if a != "" && b != "" { LeqAntisymmetric(a[1..], b[1..]); }
  }

  lemma {:induction false} LeqTotal(a: string, b: string)
    ensures Leq(a, b) || Leq(b, a)
  {
    if a != "" && b != "" { LeqTotal(a[1..], b[1..]); }
  }

  lemma {:induction false} LeqTransitive(a: string, b: string, c: string)
    requires Leq(a, b) && Leq(b, c)
    ensures Leq(a, c)
  {
    if a != "" && b != "" && c != "" && a[0] == b[0] == c[0] {
      LeqTransitive(a[1..], b[1..], c[1..]);
    }
  }

  ghost predicate StrictlySorted(s: seq<string>) {
    forall i, j :: 0 <= i < j < |s| ==> Leq(s[i], s[j]) && s[i] != s[j]
  }

  predicate IsLeast(x: string, s: set<string>) {
    x in s && forall y :: y in s ==> Leq(x, y)
  }

  lemma {:induction false} FindLeast(s: set<string>) returns (m: string)
    requires s != {}
    ensures IsLeast(m, s)
  {
    var x :| x in s;
    LeqTotal(x, x);
    if s == {x} {
      m := x;
    } else {
      var least := FindLeast(s - {x});
      LeqTotal(x, least);
      m := if Leq(x, least) then x else least;
      forall y | y in s ensures Leq(m, y) {
        if y != x {
          assert y in s - {x};
          LeqTransitive(m, least, y);
        }
      }
    }
  }

  lemma LeastUnique(x: string, y: string, s: set<string>)
    requires IsLeast(x, s) && IsLeast(y, s)
    ensures x == y
  {
    LeqAntisymmetric(x, y);
  }

  lemma LeastExistsOnce(s: set<string>)
    requires s != {}
    ensures exists x :: IsLeast(x, s)
    ensures forall x, y :: IsLeast(x, s) && IsLeast(y, s) ==> x == y
  {
    var m := FindLeast(s);
    forall x, y | IsLeast(x, s) && IsLeast(y, s) ensures x == y {
      LeastUnique(x, y, s);
    }
  }

  function Least(s: set<string>): (x: string)
    requires s != {}
    ensures IsLeast(x, s)
  {
    LeastExistsOnce(s);
    var x :| x in s && IsLeast(x, s);
    x
  }

  /** `sorted(s)` for a set of strings. */
  function SortedKeys(s: set<string>): (r: seq<string>)
    ensures StrictlySorted(r)
    ensures forall x :: x in r <==> x in s
    decreases |s|
  {
    if s == {} then []
    else
      var x := Least(s);
      var rest := SortedKeys(s - {x});
      assert forall i :: 0 <= i < |rest| ==> rest[i] in rest;
      [x] + rest
  }

  // ---------------------------------------------------------------- regrouping concatenations

  lemma Regroup3<T>(a: seq<T>, b: seq<T>, c: seq<T>)
    ensures a + b + c == a + (b + c)
  {
  }

  lemma Regroup4<T>(a: seq<T>, b: seq<T>, c: seq<T>, d: seq<T>)
    ensures a + b + c + d == a + (b + c + d)
  {
  }

  lemma Regroup5<T>(a: seq<T>, b: seq<T>, c: seq<T>, d: seq<T>, e: seq<T>)
    ensures a + b + c + d + e == a + (b + (c + d + e))
    ensures a + (b + c) + d + e == a + b + (c + d + e)
  {
  }
}
