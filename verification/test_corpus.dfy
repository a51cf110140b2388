/** The text index of `scripts/failure_string_reachability_report.py`: all test files
    normalized, joined into one blob, and searched through prefix offsets. */
module TestCorpusIndex {
  import opened Strings

  // ---------------------------------------------------------------- normalization

  function DropBackslashes(s: string): (r: string)
    ensures '\\' !in r && forall c :: c in r ==> c in s
  {
    if s == "" then "" else if s[0] == '\\' then DropBackslashes(s[1..]) else [s[0]] + DropBackslashes(s[1..])
  }

  /** `re.sub(r"\s+", " ", s)`. */
  function Collapse(s: string): (r: string)
    decreases |s|
  {
    if s == "" then ""
    else if IsSpace(s[0]) then " " + Collapse(TrimLeft(s[1..], IsSpace))
    else [s[0]] + Collapse(s[1..])
  }

  function Normalize(text: string): string {
    Strip(Collapse(DropBackslashes(text)))
  }

  /** No two spaces in a row, and no white space but ' '. */
  predicate SingleSpaced(s: string) {
    && (forall i :: 0 <= i < |s| && IsSpace(s[i]) ==> s[i] == ' ')
    && forall i :: 0 <= i < |s| - 1 ==> !(IsSpace(s[i]) && IsSpace(s[i + 1]))
  }

  predicate Normal(s: string) {
    '\\' !in s && SingleSpaced(s) && (s != "" ==> !IsSpace(s[0]) && !IsSpace(s[|s| - 1]))
  }

  lemma SingleSpacedCons(c: char, rest: string)
    requires SingleSpaced(rest) && (IsSpace(c) ==> c == ' ' && (rest != "" ==> !IsSpace(rest[0])))
    ensures SingleSpaced([c] + rest)
  {
    hide IsSpace;
    var s := [c] + rest;
    assert forall i :: 1 <= i < |s| ==> s[i] == rest[i - 1];
  }

  lemma {:induction false} CollapseSingleSpaces(s: string)
    ensures SingleSpaced(Collapse(s))
    ensures forall c :: c in Collapse(s) ==> c in s || c == ' '
    ensures s != "" && !IsSpace(s[0]) ==> Collapse(s) != "" && !IsSpace(Collapse(s)[0])
    decreases |s|
  {
    hide SingleSpaced;
    assert SingleSpaced("") by { EmptyIsSingleSpaced(); }
    if s != "" {
      var rest := if IsSpace(s[0]) then TrimLeft(s[1..], IsSpace) else s[1..];
      CollapseSingleSpaces(rest);
      SingleSpacedCons(if IsSpace(s[0]) then ' ' else s[0], Collapse(rest));
    }
  }

  lemma EmptyIsSingleSpaced()
    ensures SingleSpaced("")
  {
  }

  lemma {:induction false} CollapseFixed(s: string)
    requires SingleSpaced(s)
    ensures Collapse(s) == s
    decreases |s|
  {
    if s != "" {
      SpacedTail(s);
      hide IsSpace, SingleSpaced;
      CollapseFixed(s[1..]);
      assert s == [s[0]] + s[1..];
    }
  }

  lemma SpacedTail(s: string)
    requires SingleSpaced(s) && s != ""
    ensures SingleSpaced(s[1..])
    ensures IsSpace(s[0]) ==> s[0] == ' ' && TrimLeft(s[1..], IsSpace) == s[1..]
  {
    hide IsSpace;
    assert forall i :: 0 <= i < |s[1..]| ==> s[1..][i] == s[i + 1];
  }

  lemma {:induction false} DropFixed(s: string)
    requires '\\' !in s
    ensures DropBackslashes(s) == s
  {
    if s != "" { DropFixed(s[1..]); }
  }

  /** A text is left alone by normalization exactly when it is normal. */
  lemma NormalizeFixedIff(s: string)
    ensures Normalize(s) == s <==> Normal(s)
  {
    if Normal(s) {
      DropFixed(s);
      CollapseFixed(s);
      TrimFixed(s, IsSpace);
    }
    if Normalize(s) == s {
      NormalizeIsNormal(s);
    }
  }

  lemma SliceSingleSpaced(s: string, a: nat, b: nat)
    requires a <= b <= |s| && SingleSpaced(s)
    ensures SingleSpaced(s[a..b])
  {
    assert forall i :: 0 <= i < b - a ==> s[a..b][i] == s[a + i];
  }

  lemma StripEnds(s: string)
    ensures var r := Strip(s); r != "" ==> !IsSpace(r[0]) && !IsSpace(r[|r| - 1])
  {
  }

  lemma StripOfSingleSpaced(s: string)
    requires SingleSpaced(s) && '\\' !in s
    ensures Normal(Strip(s))
  {
    StripEnds(s);
    hide IsSpace, Strip, SingleSpaced;
    StripIsMiddle(s);
    var a, b :| 0 <= a <= b <= |s| && Strip(s) == s[a..b];
    SliceSingleSpaced(s, a, b);
    assert forall i :: 0 <= i < b - a ==> s[a..b][i] == s[a + i];
  }

  lemma NormalizeIsNormal(s: string)
    ensures Normal(Normalize(s))
  {
    hide DropBackslashes, Collapse, Strip;
    CollapseSingleSpaces(DropBackslashes(s));
    StripOfSingleSpaced(Collapse(DropBackslashes(s)));
  }

  // ---------------------------------------------------------------- what normalization keeps

  /** Backslashes go, and nothing else does. */
  lemma {:induction false} DropBackslashesExact(s: string)
    ensures Filtered(DropBackslashes(s), s, (c: char) => c != '\\')
  {
    hide Filtered;
    var keep := (c: char) => c != '\\';
    if s == "" {
      FilteredNothing(keep);
    } else {
      DropBackslashesExact(s[1..]);
      FilteredCons(s[0], DropBackslashes(s[1..]), s[1..], keep);
      assert s == [s[0]] + s[1..];
    }
  }

  lemma {:induction false} CollapseWord(w: string, rest: string)
    requires forall c :: c in w ==> !IsSpace(c)
    ensures Collapse(w + rest) == w + Collapse(rest)
  {
    hide IsSpace;
    if w == "" {
      assert w + rest == rest;
    } else {
      assert (w + rest)[1..] == w[1..] + rest;
      CollapseWord(w[1..], rest);
    }
  }

  lemma CollapseBlank(s: string)
    requires s != "" && IsSpace(s[0])
    ensures Collapse(s) == " " + Collapse(TrimLeft(s[1..], IsSpace))
  {
  }

  lemma NotSpaceMeans(s: string)
    ensures var rest := TrimLeft(s, NotSpace);
            && |rest| <= |s| && s == s[..|s| - |rest|] + rest && (rest != "" ==> IsSpace(rest[0]))
            && (forall c :: c in s[..|s| - |rest|] ==> !IsSpace(c))
            && (s != "" && !IsSpace(s[0]) ==> |rest| < |s|)
  {
    hide IsSpace;
  }

  lemma WordsAfterTrim(s: string)
    ensures Words(TrimLeft(s, IsSpace)) == Words(s) && |TrimLeft(s, IsSpace)| <= |s|
  {
    hide IsSpace, Words, TrimLeft;
    var rest := TrimLeft(s, IsSpace);
    var blanks := s[..|s| - |rest|];
    assert s == blanks + rest;
    WordsAfterBlanks(blanks, rest);
  }

  /** Collapsing white space keeps the words and their order. */
  lemma {:induction false} WordsOfCollapsed(s: string)
    ensures Words(Collapse(s)) == Words(s)
    decreases |s|
  {
    hide IsSpace, Words, Collapse, TrimLeft;
    if s == "" {
      CollapsedNothing();
    } else if IsSpace(s[0]) {
      BlankThenWords(s);
    } else {
      var rest := TrimLeft(s, NotSpace);
      NotSpaceMeans(s);
      if rest != "" {
        WordsAfterTrim(rest[1..]);
        WordsOfCollapsed(TrimLeft(rest[1..], IsSpace));
      }
      WordThenWords(s[..|s| - |rest|], rest);
    }
  }

  lemma WordThenWords(w: string, rest: string)
    requires w != "" && (forall c :: c in w ==> !IsSpace(c)) && (rest != "" ==> IsSpace(rest[0]))
    requires rest != "" ==> Words(Collapse(TrimLeft(rest[1..], IsSpace))) == Words(rest[1..])
    ensures Words(Collapse(w + rest)) == Words(w + rest)
  {
    hide IsSpace, Words, Collapse, TrimLeft;
    CollapseWord(w, rest);
    if rest == "" {
      CollapsedNothing();
    } else {
      WordThenCollapsed(w, rest);
      WordThenBlank(w, rest[0], rest[1..]);
      assert w + rest == w + [rest[0]] + rest[1..];
    }
  }

  lemma WordThenCollapsed(w: string, rest: string)
    requires w != "" && (forall c :: c in w ==> !IsSpace(c)) && rest != "" && IsSpace(rest[0])
    ensures Words(w + Collapse(rest)) == [w] + Words(Collapse(TrimLeft(rest[1..], IsSpace)))
  {
    hide IsSpace, Words, Collapse, TrimLeft;
    CollapseBlank(rest);
    var more := Collapse(TrimLeft(rest[1..], IsSpace));
    assert w + (" " + more) == w + [' '] + more;
    BlankIsSpace();
    WordThenBlank(w, ' ', more);
  }

  lemma CollapsedNothing()
    ensures Collapse("") == ""
  {
  }

  lemma {:induction false} BlankThenWords(s: string)
    requires s != "" && IsSpace(s[0])
    ensures Words(Collapse(s)) == Words(s)
    decreases |s|, 0
  {
    hide IsSpace, Words, Collapse, TrimLeft;
    var rest := TrimLeft(s[1..], IsSpace);
    WordsAfterTrim(s[1..]);
    WordsOfCollapsed(rest);
    CollapseBlank(s);
    assert IsSpace(' ') by { BlankIsSpace(); }
    WordsAfterBlanks(" ", Collapse(rest));
    WordsSkip(s);
  }

  /** A normal text is its words joined by single blanks. */
  lemma {:induction false} JoinOfWords(s: string)
    requires SingleSpaced(s) && (s != "" ==> !IsSpace(s[0]) && !IsSpace(s[|s| - 1]))
    ensures Join(Words(s), ' ') == s
    decreases |s|
  {
    hide IsSpace, Words, TrimLeft, SingleSpaced;
    NoWordsInNothing();
    if s != "" {
      var rest := TrimLeft(s, NotSpace);
      NotSpaceMeans(s);
      var w := s[..|s| - |rest|];
      if rest == "" {
        assert w == s;
        WordsOfWord(w);
      } else {
        RestOfSpaced(s, |w|);
        JoinOfWords(s[|w| + 1..]);
        assert s == w + [' '] + s[|w| + 1..];
        BlankIsSpace();
        WordThenBlank(w, ' ', s[|w| + 1..]);
        JoinsInFront(w, s[|w| + 1..]);
      }
    }
  }

  /** After the blank at `k` a normal text goes on with a word. */
  lemma RestOfSpaced(s: string, k: nat)
    requires SingleSpaced(s) && k < |s| && IsSpace(s[k]) && !IsSpace(s[|s| - 1])
    ensures s[k] == ' ' && k + 1 < |s| && !IsSpace(s[k + 1]) && SingleSpaced(s[k + 1..])
  {
    hide IsSpace;
    assert k + 1 < |s|;
    SliceSingleSpaced(s, k + 1, |s|);
    assert s[k + 1..] == s[k + 1..|s|];
  }

  lemma JoinsInFront(w: string, more: string)
    requires more != "" && Join(Words(more), ' ') == more
    ensures Join([w] + Words(more), ' ') == w + [' '] + more
  {
    hide Words;
    var words := Words(more);
    assert words != [];
    assert ([w] + words)[1..] == words;
  }

  /** Normalization keeps exactly the words of the text without its backslashes, in order, one blank
      between any two. */
  lemma NormalizeIsWords(text: string)
    ensures Words(Normalize(text)) == Words(DropBackslashes(text))
    ensures Normalize(text) == Join(Words(DropBackslashes(text)), ' ')
    ensures Filtered(DropBackslashes(text), text, (c: char) => c != '\\')
  {
    DropBackslashesExact(text);
    NormalizeIsNormal(text);
    hide DropBackslashes, Collapse, Strip, Words, Join, IsSpace, Filtered;
    WordsOfCollapsed(DropBackslashes(text));
    WordsOfStripped(Collapse(DropBackslashes(text)));
    JoinOfWords(Normalize(text));
  }

  /** Normalization is idempotent, and leaves no line break for a needle to straddle. */
  lemma NormalizeIdempotent(s: string)
    ensures Normalize(Normalize(s)) == Normalize(s) && '\n' !in Normalize(s)
  {
    NormalizeIsNormal(s);
    NormalizeFixedIff(Normalize(s));
  }

  // ---------------------------------------------------------------- searching

  /** `hay.find(needle)` from position `i` on. */
  function FindFrom(hay: string, needle: string, i: nat): (p: Option<nat>)
    requires i <= |hay|
    ensures p.Some? ==> i <= p.value && OccursAt(needle, hay, p.value)
    ensures p.Some? ==> forall k :: i <= k < p.value ==> !OccursAt(needle, hay, k)
    ensures p.None? ==> forall k :: i <= k ==> !OccursAt(needle, hay, k)
    decreases |hay| - i
  {
    if OccursAt(needle, hay, i) then Some(i) else if i == |hay| then None else FindFrom(hay, needle, i + 1)
  }

  /** `bisect.bisect_right` on an increasing list: how many entries are at most `x`. */
  function BisectRight(offsets: seq<nat>, x: nat): (n: nat)
    ensures n <= |offsets|
    ensures n > 0 ==> offsets[n - 1] <= x
    ensures n < |offsets| ==> offsets[n] > x
  {
    if offsets == [] then 0
    else if offsets[|offsets| - 1] <= x then |offsets|
    else
      var n := BisectRight(offsets[..|offsets| - 1], x);
      n
  }

  /** Where text `i` starts in the blob. */
  function Offset(texts: seq<string>, i: nat): nat
    requires i <= |texts|
  {
    if i == 0 then 0 else Offset(texts, i - 1) + |texts[i - 1]| + 1
  }

  lemma {:induction false} OffsetOfPrefix(texts: seq<string>, n: nat, i: nat)
    requires i <= n <= |texts|
    ensures Offset(texts[..n], i) == Offset(texts, i)
  {
    if i > 0 { OffsetOfPrefix(texts, n, i - 1); }
  }

  lemma {:induction false} OffsetsIncrease(texts: seq<string>, i: nat, j: nat)
    requires i < j <= |texts|
    ensures Offset(texts, i) + |texts[i]| < Offset(texts, j)
  {
    if i < j - 1 { OffsetsIncrease(texts, i, j - 1); }
  }

  ghost predicate LineFree(texts: seq<string>) { SepFree(texts, '\n') }

  /** Each text stands in the blob at its offset, followed by a line break or the end. */
  lemma {:induction false} TextInBlob(texts: seq<string>, i: nat)
    requires i < |texts|
    ensures var blob, a := Join(texts, '\n'), Offset(texts, i);
            && a + |texts[i]| <= |blob| && blob[a..a + |texts[i]|] == texts[i]
            && (a + |texts[i]| == |blob| <==> i == |texts| - 1)
            && (i < |texts| - 1 ==> blob[a + |texts[i]|] == '\n')
    decreases |texts|
  {
    var n := |texts| - 1;
    if n == 0 {
      return;
    }
    var init, last := texts[..n], texts[n];
    JoinConcat(init, [last], '\n');
    assert texts == init + [last];
    var blob := Join(texts, '\n');
    assert blob == Join(init, '\n') + ['\n'] + last;
    OffsetOfPrefix(texts, n, i);
    TextInBlob(init, if i < n then i else n - 1);
    OffsetOfPrefix(texts, n, n - 1);
    if i == n {
      assert Offset(texts, n) == |Join(init, '\n')| + 1;
      assert blob[|Join(init, '\n')| + 1..] == last;
    }
  }

  lemma OccurrenceLetters(needle: string, hay: string, p: nat)
    requires OccursAt(needle, hay, p)
    ensures forall e :: p <= e < p + |needle| ==> hay[e] in needle
  {
    forall e | p <= e < p + |needle| ensures hay[e] in needle {
      assert hay[p..p + |needle|][e - p] == hay[e];
    }
  }

  lemma SliceOfSlice(s: string, a: nat, b: nat, c: nat, d: nat)
    requires a <= b <= |s| && c <= d <= b - a
    ensures s[a..b][c..d] == s[a + c..a + d]
  {
    assert forall i :: 0 <= i < d - c ==> s[a..b][c..d][i] == s[a + c..a + d][i];
  }

  lemma OccursInSlice(needle: string, hay: string, a: nat, b: nat, k: nat)
    requires a <= b <= |hay|
    ensures OccursAt(needle, hay[a..b], k) <==> a + k + |needle| <= b && OccursAt(needle, hay, a + k)
  {
    if a + k + |needle| <= b {
      SliceOfSlice(hay, a, b, k, k + |needle|);
    }
  }

  /** An occurrence that starts in the stretch of text `i` lies wholly inside that text. */
  lemma OccurrenceInsideText(texts: seq<string>, needle: string, p: nat, i: nat)
    requires LineFree(texts) && needle != "" && '\n' !in needle && i < |texts|
    requires OccursAt(needle, Join(texts, '\n'), p)
    requires Offset(texts, i) <= p && (i + 1 < |texts| ==> p < Offset(texts, i + 1))
    ensures OccursAt(needle, texts[i], p - Offset(texts, i))
  {
    TextInBlob(texts, i);
    var blob, a := Join(texts, '\n'), Offset(texts, i);
    OccurrenceLetters(needle, blob, p);
    OccursInSlice(needle, blob, a, a + |texts[i]|, p - a);
  }

  lemma OccurrenceInBlob(texts: seq<string>, needle: string, i: nat, k: nat)
    requires i < |texts| && OccursAt(needle, texts[i], k)
    ensures OccursAt(needle, Join(texts, '\n'), Offset(texts, i) + k)
  {
    hide Join, Offset;
    TextInBlob(texts, i);
    var blob, a := Join(texts, '\n'), Offset(texts, i);
    OccursInSlice(needle, blob, a, a + |texts[i]|, k);
  }

  /** Text `i` is the first that contains the needle. */
  ghost predicate IsFirst(texts: seq<string>, needle: string, i: nat) {
    i < |texts| && Occurs(needle, texts[i]) && forall j :: 0 <= j < i ==> !Occurs(needle, texts[j])
  }

  // ---------------------------------------------------------------- the index

  /** `Path.as_posix()` of a file, which is never empty. */
  type FilePath = p: string | p != "" witness "."

  /** A path under the test root as the constructor finds it: whether it is a file, lies in a
      skipped directory, can be read, what bytes it holds and what they decode to. */
  datatype Candidate = Candidate(path: FilePath, isFile: bool, inSkippedDir: bool, readable: bool, raw: seq<bv8>,
                                 text: string)

  predicate Binary(raw: seq<bv8>) { 0 in raw[..if |raw| < 4096 then |raw| else 4096] }

  predicate Indexable(c: Candidate) { c.isFile && !c.inSkippedDir && c.readable && !Binary(c.raw) }

  /** The files a test corpus stands for: in order, those worth indexing. */
  function IndexedFiles(candidates: seq<Candidate>): seq<Candidate> {
    if candidates == [] then []
    else
      var n := |candidates| - 1;
      if Indexable(candidates[n]) then IndexedFiles(candidates[..n]) + [candidates[n]]
      else IndexedFiles(candidates[..n])
  }

  function TextsOf(files: seq<Candidate>): (texts: seq<string>)
    ensures |texts| == |files| && forall i :: 0 <= i < |files| ==> texts[i] == Normalize(files[i].text)
  {
    seq(|files|, i requires 0 <= i < |files| => Normalize(files[i].text))
  }

  lemma TextsAreLineFree(files: seq<Candidate>)
    ensures LineFree(TextsOf(files))
  {
    hide Normalize;
    forall i | 0 <= i < |files| ensures '\n' !in TextsOf(files)[i] {
      NormalizeIdempotent(files[i].text);
    }
  }

  /** The offsets recorded for some texts, and where the next text would start. */
  ghost predicate OffsetsFor(texts: seq<string>, offsets: seq<nat>, next: nat) {
    && |offsets| == |texts| && next == Offset(texts, |texts|)
    && forall i :: 0 <= i < |texts| ==> offsets[i] == Offset(texts, i)
  }

  lemma OffsetsExtend(texts: seq<string>, offsets: seq<nat>, next: nat, text: string)
    requires OffsetsFor(texts, offsets, next)
    ensures OffsetsFor(texts + [text], offsets + [next], next + |text| + 1)
  {
    var longer := texts + [text];
    assert longer[..|texts|] == texts;
    forall k | 0 <= k <= |texts| ensures Offset(longer, k) == Offset(texts, k) {
      OffsetOfPrefix(longer, |texts|, k);
    }
  }

  lemma {:induction false} BisectFirst(offsets: seq<nat>)
    requires |offsets| >= 1 && offsets[0] == 0 && forall i :: 0 < i < |offsets| ==> offsets[i] > 0
    ensures BisectRight(offsets, 0) == 1
  {
    if |offsets| > 1 { BisectFirst(offsets[..|offsets| - 1]); }
  }

  lemma FirstFileFound(texts: seq<string>, offsets: seq<nat>, next: nat, needle: string, p: nat)
    requires LineFree(texts) && needle != "" && '\n' !in needle && OffsetsFor(texts, offsets, next)
    requires OccursAt(needle, Join(texts, '\n'), p)
    requires forall k :: 0 <= k < p ==> !OccursAt(needle, Join(texts, '\n'), k)
    ensures BisectRight(offsets, p) >= 1 && IsFirst(texts, needle, BisectRight(offsets, p) - 1)
  {
    hide BisectRight;
    assert texts == [] ==> Join(texts, '\n') == "";
    var n := BisectRight(offsets, p);
    assert n >= 1 by { assert offsets[0] == 0; }
    var i := n - 1;
    OccurrenceInsideText(texts, needle, p, i);
    assert Occurs(needle, texts[i]);
    forall j | 0 <= j < i ensures !Occurs(needle, texts[j]) {
      if Occurs(needle, texts[j]) {
        var k: nat :| OccursAt(needle, texts[j], k);
        OccurrenceInBlob(texts, needle, j, k);
        OffsetsIncrease(texts, j, i);
      }
    }
  }

  lemma NoFileHolds(texts: seq<string>, needle: string)
    requires forall k: nat :: !OccursAt(needle, Join(texts, '\n'), k)
    ensures needle != "" && forall i :: 0 <= i < |texts| ==> !Occurs(needle, texts[i])
  {
    if needle == "" { assert OccursAt("", Join(texts, '\n'), 0); }
    forall i | 0 <= i < |texts| ensures !Occurs(needle, texts[i]) {
      if Occurs(needle, texts[i]) {
        var k :| OccursAt(needle, texts[i], k);
        OccurrenceInBlob(texts, needle, i, k);
      }
    }
  }

  /** What searching the files one after the other answers: the first that holds the needle.
      The empty needle is in the first file, or in no named one when there are no files. */
  ghost predicate SearchAnswer(files: seq<Candidate>, needle: string, found: Option<FilePath>) {
    if needle == "" then found == Some(if files == [] then "?" else files[0].path)
    else
      match found
      case None => forall i :: 0 <= i < |files| ==> !Occurs(needle, TextsOf(files)[i])
      case Some(path) => exists i: nat :: IsFirst(TextsOf(files), needle, i) && path == files[i].path
  }

  /** `p` is where the needle first occurs in all the texts read one after the other, each on a line
      of its own, and that is in text `i`'s stretch, its line break included. */
  ghost predicate StartsIn(texts: seq<string>, needle: string, i: nat, p: nat) {
    && i < |texts| && Offset(texts, i) <= p && (i + 1 < |texts| ==> p < Offset(texts, i + 1))
    && OccursAt(needle, Join(texts, '\n'), p) && forall k :: 0 <= k < p ==> !OccursAt(needle, Join(texts, '\n'), k)
  }

  /** What the index answers for any needle at all, one that runs over several lines included: where
      its first occurrence starts. */
  ghost predicate BlobAnswer(files: seq<Candidate>, needle: string, found: Option<FilePath>) {
    var texts := TextsOf(files);
    && (found.Some? <==> Occurs(needle, Join(texts, '\n')))
    && (found.Some? && files != [] ==>
            exists i: nat, p: nat :: StartsIn(texts, needle, i, p) && found.value == files[i].path)
  }

  /** `TestCorpus`. */
  class TestCorpus {
    var offsets: seq<nat>
    var files: seq<FilePath>
    var blob: string
    ghost var indexed: seq<Candidate>

    ghost predicate Valid()
      reads this
    {
      && blob == Join(TextsOf(indexed), '\n')
      && |files| == |indexed|
      && (forall i :: 0 <= i < |files| ==> files[i] == indexed[i].path)
      && OffsetsFor(TextsOf(indexed), offsets, Offset(TextsOf(indexed), |indexed|))
    }

    constructor (candidates: seq<Candidate>)
      ensures Valid() && indexed == IndexedFiles(candidates)
    {
      hide Normalize, Offset, Join, Indexable;
      var chunks: seq<string> := [];
      var starts: seq<nat> := [];
      var names: seq<FilePath> := [];
      var pos: nat := 0;
      ghost var kept: seq<Candidate> := [];
      assert Offset([], 0) == 0 by { OffsetOfNothing(); }
      for i := 0 to |candidates|
        invariant kept == IndexedFiles(candidates[..i]) && chunks == TextsOf(kept)
        invariant OffsetsFor(chunks, starts, pos)
        invariant |names| == |kept| && forall k :: 0 <= k < |kept| ==> names[k] == kept[k].path
      {
        assert candidates[..i + 1][..i] == candidates[..i];
        var c := candidates[i];
        IndexableIff(c);
        if !c.isFile || c.inSkippedDir || !c.readable || Binary(c.raw) {
          continue;
        }
        var normalized := Normalize(c.text);
        OffsetsExtend(chunks, starts, pos, normalized);
        starts, names := starts + [pos], names + [c.path];
        kept, chunks := kept + [c], chunks + [normalized];
        pos := pos + |normalized| + 1;
      }
      assert candidates[..|candidates|] == candidates;
      offsets, files, blob := starts, names, Join(chunks, '\n');
      indexed := kept;
    }

    /** `_file_at`. */
    function FileAt(position: nat): FilePath
      reads this
      requires |offsets| == |files|
    {
      var n := BisectRight(offsets, position);
      if 1 <= n then files[n - 1] else "?"
    }

    /** Looking a needle without line breaks up in the blob agrees with searching the files one by
        one; any needle is reported where its first occurrence in the joined texts starts. */
    method Find(needle: string) returns (found: Option<FilePath>)
      requires Valid()
      ensures '\n' !in needle ==> SearchAnswer(indexed, needle, found)
      ensures BlobAnswer(indexed, needle, found)
    {
      hide Normalize, Offset, Join, BisectRight, OccursAt, BlobAnswer;
      ghost var texts := TextsOf(indexed);
      var position := FindFrom(blob, needle, 0);
      if position.None? {
        NoFileHolds(texts, needle);
        NotInBlob(indexed, needle);
        return None;
      }
      TextsAreLineFree(indexed);
      FoundInBlob(indexed, offsets, needle, position.value, FileAt(position.value));
      if needle == "" {
        EmptyNeedleAt(blob, position.value, texts, offsets);
      } else if '\n' !in needle {
        FirstFileFound(texts, offsets, Offset(texts, |indexed|), needle, position.value);
      }
      return Some(FileAt(position.value));
    }
  }

  lemma NotInBlob(files: seq<Candidate>, needle: string)
    requires forall k: nat :: !OccursAt(needle, Join(TextsOf(files), '\n'), k)
    ensures BlobAnswer(files, needle, None)
  {
    hide Join, TextsOf, Offset;
  }

  lemma FoundInBlob(files: seq<Candidate>, offsets: seq<nat>, needle: string, p: nat, path: FilePath)
    requires OffsetsFor(TextsOf(files), offsets, Offset(TextsOf(files), |files|))
    requires OccursAt(needle, Join(TextsOf(files), '\n'), p)
    requires forall k :: 0 <= k < p ==> !OccursAt(needle, Join(TextsOf(files), '\n'), k)
    requires files != [] ==> var n := BisectRight(offsets, p); path == if 1 <= n then files[n - 1].path else "?"
    ensures BlobAnswer(files, needle, Some(path))
  {
    hide Join, BisectRight, OccursAt, StartsIn, OffsetsFor, Normalize;
    var texts := TextsOf(files);
    assert Occurs(needle, Join(texts, '\n'));
    if files != [] { BisectStretch(texts, offsets, needle, p); }
  }

  /** The bisection picks the text whose stretch holds the position. */
  lemma BisectStretch(texts: seq<string>, offsets: seq<nat>, needle: string, p: nat)
    requires texts != [] && OffsetsFor(texts, offsets, Offset(texts, |texts|))
    requires OccursAt(needle, Join(texts, '\n'), p)
    requires forall k :: 0 <= k < p ==> !OccursAt(needle, Join(texts, '\n'), k)
    ensures BisectRight(offsets, p) >= 1 && StartsIn(texts, needle, BisectRight(offsets, p) - 1, p)
  {
    OffsetStarts(texts);
    hide Join, BisectRight, OccursAt, Offset;
    assert offsets[0] == 0;
  }

  lemma OffsetStarts(texts: seq<string>)
    ensures Offset(texts, 0) == 0
  {
  }

  lemma OffsetOfNothing()
    ensures Offset([], 0) == 0
  {
  }

  lemma IndexableIff(c: Candidate)
    ensures Indexable(c) <==> c.isFile && !c.inSkippedDir && c.readable && !Binary(c.raw)
  {
  }

  lemma EmptyNeedleAt(blob: string, p: nat, texts: seq<string>, offsets: seq<nat>)
    requires forall k :: 0 <= k < p ==> !OccursAt("", blob, k)
    requires OffsetsFor(texts, offsets, Offset(texts, |texts|))
    requires OccursAt("", blob, p)
    ensures p == 0 && BisectRight(offsets, p) == if texts == [] then 0 else 1
  {
    assert OccursAt("", blob, 0);
    if texts != [] {
      forall i | 0 < i < |offsets| ensures offsets[i] > 0 { OffsetsIncrease(texts, 0, i); }
      BisectFirst(offsets);
    }
  }

  // ---------------------------------------------------------------- which sentences are tested

  predicate SentenceEnd(c: char) { c == '.' || c == '!' || c == '?' }

  /** The needles tried for a sentence, in order, each with the note that reports its match. */
  function Needles(text: string): seq<(string, string)> {
    var normalized := Normalize(text);
    var words := Words(TrimRight(normalized, SentenceEnd));
    [("exact match in ", normalized)]
    + if |words| < 8 then []
      else [("leading 6-word span match in ", Join(words[..6], ' ')),
            ("trailing 6-word span match in ", Join(words[|words| - 6..], ' '))]
  }

  lemma NeedlesAreLineFree(text: string)
    ensures forall k :: 0 <= k < |Needles(text)| ==> '\n' !in Needles(text)[k].1
  {
    hide Normalize;
    NormalizeIdempotent(text);
    var words := Words(TrimRight(Normalize(text), SentenceEnd));
    assert SepFree(words, '\n') by { assert IsSpace('\n'); }
    if |words| >= 8 {
      JoinSepFree(words[..6], ' ', '\n');
      JoinSepFree(words[|words| - 6..], ' ', '\n');
    }
  }

  /** Some indexed file holds the needle. */
  ghost predicate Held(files: seq<Candidate>, needle: string) {
    needle == "" || exists i :: 0 <= i < |files| && Occurs(needle, TextsOf(files)[i])
  }

  /** The first needle of a sentence that some file holds. */
  ghost predicate FirstHeld(files: seq<Candidate>, needles: seq<(string, string)>, k: nat) {
    k < |needles| && Held(files, needles[k].1) && forall j :: 0 <= j < k ==> !Held(files, needles[j].1)
  }

  /** A sentence counts as tested when any of its needles stands in any file. */
  ghost predicate Tested(files: seq<Candidate>, text: string) {
    exists k: nat :: FirstHeld(files, Needles(text), k)
  }

  lemma AnswerIffHeld(files: seq<Candidate>, needle: string, found: Option<FilePath>)
    requires SearchAnswer(files, needle, found)
    ensures found.Some? <==> Held(files, needle)
  {
  }

  /** A `Sentence` and the two fields the check fills in. */
  class Sentence {
    const text: string
    var tested: bool
    var matchNote: string

    constructor (text: string)
      ensures this.text == text && !tested && matchNote == ""
    {
      this.text, tested, matchNote := text, false, "";
    }

    /** The note names the first needle held and the first file that holds it. */
    ghost predicate NotedMatch(files: seq<Candidate>, k: nat)
      reads this
    {
      && FirstHeld(files, Needles(text), k)
      && exists path: FilePath :: SearchAnswer(files, Needles(text)[k].1, Some(path))
              && matchNote == Needles(text)[k].0 + path
    }

    /** `check_tested`. */
    method CheckTested(corpus: TestCorpus)
      requires corpus.Valid()
      modifies this
      ensures tested <==> Tested(corpus.indexed, text)
      ensures tested ==> exists k: nat :: NotedMatch(corpus.indexed, k)
      ensures !tested ==> matchNote == old(matchNote)
    {
      hide SearchAnswer, Held, Needles, Normalize, OffsetsFor, Offset, Join, TextsOf, OccursAt, Occurs;
      var needles := Needles(text);
      NeedlesAreLineFree(text);
      for k := 0 to |needles|
        invariant matchNote == old(matchNote) && forall j :: 0 <= j < k ==> !Held(corpus.indexed, needles[j].1)
      {
        var found := corpus.Find(needles[k].1);
        AnswerIffHeld(corpus.indexed, needles[k].1, found);
        if found.Some? {
          tested, matchNote := true, needles[k].0 + found.value;
          assert NotedMatch(corpus.indexed, k);
          return;
        }
      }
      tested := false;
    }
  }

  lemma {:induction false} IndexedFilesExact(candidates: seq<Candidate>, c: Candidate)
    ensures c in IndexedFiles(candidates) <==> c in candidates && Indexable(c)
  {
    if candidates != [] {
      IndexedFilesExact(candidates[..|candidates| - 1], c);
      assert candidates == candidates[..|candidates| - 1] + [candidates[|candidates| - 1]];
    }
  }

  lemma HeldGrows(files: seq<Candidate>, more: seq<Candidate>, needle: string)
    requires Held(files, needle) && forall c :: c in files ==> c in more
    ensures Held(more, needle)
  {
    hide Occurs, Normalize;
    if needle != "" {
      var i :| 0 <= i < |files| && Occurs(needle, TextsOf(files)[i]);
      assert files[i] in more;
      var j :| 0 <= j < |more| && more[j] == files[i];
      assert TextsOf(more)[j] == TextsOf(files)[i];
    }
  }

  lemma {:induction false} SomeHeldIsTested(files: seq<Candidate>, needles: seq<(string, string)>, k: nat)
    requires k < |needles| && Held(files, needles[k].1)
    ensures exists m: nat :: FirstHeld(files, needles, m)
  {
    if j: nat :| j < k && Held(files, needles[j].1) {
      SomeHeldIsTested(files, needles, j);
    } else {
      assert FirstHeld(files, needles, k);
    }
  }

  predicate BlankOrBackslash(c: char) { IsSpace(c) || c == '\\' }

  lemma {:induction false} DropKeepsTheRest(s: string, c: char)
    ensures c in DropBackslashes(s) <==> c in s && c != '\\'
  {
    if s != "" {
      DropKeepsTheRest(s[1..], c);
      assert c in s <==> c == s[0] || c in s[1..];
    }
  }

  lemma {:induction false} CollapseKeepsWords(s: string, c: char)
    requires !IsSpace(c)
    ensures c in Collapse(s) <==> c in s
    decreases |s|
  {
    hide IsSpace;
    if s != "" {
      var rest := if IsSpace(s[0]) then TrimLeft(s[1..], IsSpace) else s[1..];
      if IsSpace(s[0]) { TrimLeftKeeps(s[1..], c); }
      CollapseKeepsWords(rest, c);
      assert c in s <==> c == s[0] || c in s[1..];
      assert Collapse(s) == [if IsSpace(s[0]) then ' ' else s[0]] + Collapse(rest);
      assert IsSpace(' ') by { BlankIsSpace(); }
    }
  }

  lemma BlankIsSpace()
    ensures IsSpace(' ')
  {
  }

  lemma TrimLeftKeeps(s: string, c: char)
    requires !IsSpace(c)
    ensures c in TrimLeft(s, IsSpace) <==> c in s
  {
    hide IsSpace;
    var k := |s| - |TrimLeft(s, IsSpace)|;
    assert s == s[..k] + TrimLeft(s, IsSpace);
  }

  lemma NormalizesToNothingIff(text: string)
    ensures Normalize(text) == "" <==> forall c :: c in text ==> BlankOrBackslash(c)
  {
    var dropped := DropBackslashes(text);
    var collapsed := Collapse(dropped);
    forall c | !IsSpace(c) ensures c in collapsed <==> c in text && c != '\\' {
      DropKeepsTheRest(text, c);
      CollapseKeepsWords(dropped, c);
    }
    assert Strip(collapsed) == "" <==> forall c :: c in collapsed ==> IsSpace(c);
  }

  /** A sentence is tested exactly when a file holds all of it, normalized, or, once it has eight words
      without its final punctuation, the first six of them or the last six. */
  lemma TestedIff(files: seq<Candidate>, text: string)
    ensures var words := Words(TrimRight(Normalize(text), SentenceEnd));
            Tested(files, text)
            <==> || Held(files, Normalize(text))
                 || (|words| >= 8 && Held(files, Join(words[..6], ' ')))
                 || (|words| >= 8 && Held(files, Join(words[|words| - 6..], ' ')))
  {
    hide Held, Normalize, Words, Join, TrimRight;
    var needles := Needles(text);
    if Tested(files, text) {
      var k: nat :| FirstHeld(files, needles, k);
      assert k < 3;
    }
    forall k: nat | k < |needles| && Held(files, needles[k].1) ensures Tested(files, text) {
      SomeHeldIsTested(files, needles, k);
    }
    var words := Words(TrimRight(Normalize(text), SentenceEnd));
    assert needles[0].1 == Normalize(text);
    assert |words| >= 8 ==> |needles| == 3 && needles[1].1 == Join(words[..6], ' ')
                            && needles[2].1 == Join(words[|words| - 6..], ' ');
  }

  lemma JoinHoldsPart(before: seq<string>, words: seq<string>, after: seq<string>)
    requires words != []
    ensures Occurs(Join(words, ' '), Join(before + words + after, ' '))
  {
    hide Join, OccursAt;
    var part, whole := Join(words, ' '), Join(before + words + after, ' ');
    if before == [] && after == [] {
      assert before + words + after == words;
      PartOccurs("", part, "");
      assert "" + part + "" == part;
    } else if after == [] {
      assert before + words + after == before + words;
      JoinConcat(before, words, ' ');
      PartOccurs(Join(before, ' ') + [' '], part, "");
      assert Join(before, ' ') + [' '] + part + "" == whole;
    } else if before == [] {
      assert before + words + after == words + after;
      JoinConcat(words, after, ' ');
      PartOccurs("", part, [' '] + Join(after, ' '));
      assert "" + part + ([' '] + Join(after, ' ')) == whole;
    } else {
      JoinConcat(before, words, ' ');
      JoinConcat(before + words, after, ' ');
      PartOccurs(Join(before, ' ') + [' '], part, [' '] + Join(after, ' '));
      assert Join(before, ' ') + [' '] + part + ([' '] + Join(after, ' ')) == whole;
    }
  }

  /** A sentence whose words stand one after the other in some file is tested, however the file spaces
      them or breaks them over lines. */
  lemma ConsecutiveWordsAreTested(files: seq<Candidate>, i: nat, text: string, before: seq<string>,
      after: seq<string>)
    requires i < |files|
    requires Words(DropBackslashes(files[i].text)) == before + Words(DropBackslashes(text)) + after
    ensures Tested(files, text)
  {
    hide Normalize, DropBackslashes, Words, Occurs, Join, Filtered;
    NormalizeIsWords(text);
    NormalizeIsWords(files[i].text);
    var words := Words(DropBackslashes(text));
    if words == [] {
      assert Join(words, ' ') == "" by { JoinOfNothing(); }
    } else {
      JoinHoldsPart(before, words, after);
      assert Occurs(Normalize(text), TextsOf(files)[i]);
    }
    assert Held(files, Normalize(text));
    TestedIff(files, text);
  }

  lemma JoinOfNothing()
    ensures Join([], ' ') == ""
  {
  }

  /** With no files at all, a sentence counts as tested exactly when it is nothing but white space and
      backslashes: the empty text stands in the empty blob. */
  lemma TestedByNothingIff(text: string)
    ensures Tested([], text) <==> forall c :: c in text ==> BlankOrBackslash(c)
  {
    hide Normalize;
    NormalizesToNothingIff(text);
    var words := Words(TrimRight(Normalize(text), SentenceEnd));
    if |words| >= 8 {
      assert Join(words[..6], ' ') != "" && Join(words[|words| - 6..], ' ') != "";
    }
    if Tested([], text) {
      var k: nat :| FirstHeld([], Needles(text), k);
      assert Needles(text)[k].1 == "";
    } else {
      assert FirstHeld([], Needles(text), 0) <==> Normalize(text) == "";
    }
  }

  /** Adding files to the test tree, wherever they sort, never makes a tested sentence untested. */
  lemma MoreFilesKeepTested(before: seq<Candidate>, after: seq<Candidate>, text: string)
    requires forall c :: c in before ==> c in after
    requires Tested(IndexedFiles(before), text)
    ensures Tested(IndexedFiles(after), text)
  {
    hide Held, Needles;
    var files, more := IndexedFiles(before), IndexedFiles(after);
    forall c | c in files ensures c in more {
      IndexedFilesExact(before, c);
      IndexedFilesExact(after, c);
    }
    var k: nat :| FirstHeld(files, Needles(text), k);
    HeldGrows(files, more, Needles(text)[k].1);
    SomeHeldIsTested(more, Needles(text), k);
  }
}
