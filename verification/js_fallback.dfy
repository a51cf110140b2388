/** The call scanner of `scripts/failure_string_reachability_report.py` (`_extract_js_fallback`):
    from the opening parenthesis of a JavaScript call it finds the first quoted literal that is
    a top-level argument other than the first. */
module JsFallback {
  import opened Strings

  predicate IsQuote(c: char) { c == '"' || c == '\'' || c == '`' }

  predicate IsOpen(c: char) { c == '(' || c == '[' || c == '{' }

  predicate IsClose(c: char) { c == ')' || c == ']' || c == '}' }

  // ---------------------------------------------------------------- the scanner

  /** The literal's text from `i` on, and where its closing quote is or the source gave out. */
  function ReadLiteral(source: string, i: nat, quote: char): (r: (string, nat))
    ensures i <= r.1
    decreases |source| - i
  {
    if i >= |source| || source[i] == quote then ("", i)
    else if source[i] == '\\' then
      if i + 1 < |source| then
        var rest := ReadLiteral(source, i + 2, quote);
        ([source[i + 1]] + rest.0, rest.1)
      else ("", i + 2)
    else
      var rest := ReadLiteral(source, i + 1, quote);
      ([source[i]] + rest.0, rest.1)
  }

  /** What the loop answers from position `i`, bracket depth `depth`, and whether a top-level comma was seen. */
  function Scan(source: string, i: nat, depth: int, seenComma: bool): Option<(string, nat)>
    decreases |source| - i
  {
    if i >= |source| then None
    else
      var c := source[i];
      if IsQuote(c) then
        var literal := ReadLiteral(source, i + 1, c);
        if depth == 1 && seenComma then Some((literal.0, i + 1)) else Scan(source, literal.1 + 1, depth, seenComma)
      else if IsOpen(c) then Scan(source, i + 1, depth + 1, seenComma)
      else if IsClose(c) then
        if depth - 1 <= 0 then None else Scan(source, i + 1, depth - 1, seenComma)
      else Scan(source, i + 1, depth, seenComma || (c == ',' && depth == 1))
  }

  /** The inner loop: the literal that starts at `start`, and where it ends. */
  method ReadQuoted(source: string, start: nat, quote: char) returns (buf: string, i: nat)
    ensures (buf, i) == ReadLiteral(source, start, quote)
  {
    i, buf := start, "";
    ghost var whole := ReadLiteral(source, i, quote);
    assert whole.0 == buf + whole.0;
    while i < |source| && source[i] != quote
      invariant whole.1 == ReadLiteral(source, i, quote).1
      invariant whole.0 == buf + ReadLiteral(source, i, quote).0
      decreases |source| - i
    {
      if source[i] == '\\' {
        i := i + 1;
        if i < |source| {
          Regroup3(buf, [source[i]], ReadLiteral(source, i + 1, quote).0);
          buf := buf + [source[i]];
        }
      } else {
        Regroup3(buf, [source[i]], ReadLiteral(source, i + 1, quote).0);
        buf := buf + [source[i]];
      }
      i := i + 1;
    }
    assert buf + "" == buf;
  }

  /** `_extract_js_fallback`. */
  method ExtractJsFallback(source: string, openParen: nat) returns (found: Option<(string, nat)>)
    ensures found == Scan(source, openParen, 0, false)
  {
    var depth := 0;
    var seenComma := false;
    var i := openParen;
    while i < |source|
      invariant Scan(source, i, depth, seenComma) == Scan(source, openParen, 0, false)
      decreases |source| - i
    {
      var c := source[i];
      if IsQuote(c) {
        var start := i + 1;
        var buf, end := ReadQuoted(source, start, c);
        i := end;
        if depth == 1 && seenComma {
          return Some((buf, start));
        }
      } else if IsOpen(c) {
        depth := depth + 1;
      } else if IsClose(c) {
        depth := depth - 1;
        if depth <= 0 {
          return None;
        }
      } else if c == ',' && depth == 1 {
        seenComma := true;
      }
      i := i + 1;
    }
    return None;
  }

  // ---------------------------------------------------------------- call texts

  /** A character of a literal, written with or without a backslash before it. */
  datatype Written = Written(escaped: bool, c: char)

  /** The pieces of a call's argument text. Brackets pair up by position, whatever their kind. */
  datatype Piece =
    | Plain(c: char)
    | Literal(quote: char, written: seq<Written>)
    | Group(opening: char, body: seq<Piece>, closing: char)

  ghost predicate WellWritten(written: seq<Written>, quote: char) {
    forall k :: 0 <= k < |written| && !written[k].escaped ==> written[k].c != quote && written[k].c != '\\'
  }

  ghost predicate WellFormed(pieces: seq<Piece>)
    decreases pieces
  {
    pieces == [] || (WellFormedPiece(pieces[0]) && WellFormed(pieces[1..]))
  }

  ghost predicate WellFormedPiece(p: Piece)
    decreases p
  {
    match p
    case Plain(c) => !IsQuote(c) && !IsOpen(c) && !IsClose(c)
    case Literal(quote, written) => IsQuote(quote) && WellWritten(written, quote)
    case Group(opening, body, closing) => IsOpen(opening) && WellFormed(body) && IsClose(closing)
  }

  function WrittenText(written: seq<Written>): string {
    if written == [] then "" else Spelled(written[0]) + WrittenText(written[1..])
  }

  function Value(written: seq<Written>): string { seq(|written|, k requires 0 <= k < |written| => written[k].c) }

  function Render(pieces: seq<Piece>): string
    decreases pieces
  {
    if pieces == [] then "" else RenderPiece(pieces[0]) + Render(pieces[1..])
  }

  function RenderPiece(p: Piece): (s: string)
    ensures s != ""
    decreases p
  {
    match p
    case Plain(c) => [c]
    case Literal(quote, written) => [quote] + WrittenText(written) + [quote]
    case Group(opening, body, closing) => [opening] + Render(body) + [closing]
  }

  /** The first literal that stands at the top level after a top-level comma, with the position
      of its text; `offset` is where the pieces start. */
  function FirstFallback(pieces: seq<Piece>, seenComma: bool, offset: nat): Option<(string, nat)> {
    if pieces == [] then None
    else if pieces[0].Literal? && seenComma then Some((Value(pieces[0].written), offset + 1))
    else FirstFallback(pieces[1..], seenComma || pieces[0] == Plain(','), offset + |RenderPiece(pieces[0])|)
  }

  /** Piece `k` is the first literal that has a top-level comma before it. */
  ghost predicate IsFirstAfterComma(pieces: seq<Piece>, k: nat) {
    && k < |pieces| && pieces[k].Literal? && Plain(',') in pieces[..k]
    && forall j :: 0 <= j < k && pieces[j].Literal? ==> Plain(',') !in pieces[..j]
  }

  lemma {:induction false} FallbackFrom(pieces: seq<Piece>, seenComma: bool, offset: nat, k: nat)
    requires k < |pieces| && pieces[k].Literal? && (seenComma || Plain(',') in pieces[..k])
    requires forall j :: 0 <= j < k && pieces[j].Literal? ==> !seenComma && Plain(',') !in pieces[..j]
    ensures FirstFallback(pieces, seenComma, offset)
            == Some((Value(pieces[k].written), offset + |Render(pieces[..k])| + 1))
    decreases k
  {
    if k == 0 {
      assert pieces[..0] == [];
    } else {
      var tail := pieces[1..];
      var seen := seenComma || pieces[0] == Plain(',');
      assert pieces[..k] == [pieces[0]] + tail[..k - 1];
      assert pieces[..k][1..] == tail[..k - 1];
      forall j | 0 <= j < k - 1 && tail[j].Literal? ensures !seen && Plain(',') !in tail[..j] {
        assert pieces[j + 1] == tail[j];
        assert pieces[..j + 1] == [pieces[0]] + tail[..j];
      }
      FallbackFrom(tail, seen, offset + |RenderPiece(pieces[0])|, k - 1);
      assert !(pieces[0].Literal? && seenComma);
    }
  }

  lemma {:induction false} NoFallbackFrom(pieces: seq<Piece>, seenComma: bool, offset: nat)
    requires forall k :: 0 <= k < |pieces| && pieces[k].Literal? ==> !seenComma && Plain(',') !in pieces[..k]
    ensures FirstFallback(pieces, seenComma, offset) == None
  {
    if pieces != [] {
      var tail := pieces[1..];
      var seen := seenComma || pieces[0] == Plain(',');
      forall j | 0 <= j < |tail| && tail[j].Literal? ensures !seen && Plain(',') !in tail[..j] {
        assert pieces[j + 1] == tail[j];
        assert pieces[..j + 1] == [pieces[0]] + tail[..j];
      }
      NoFallbackFrom(tail, seen, offset + |RenderPiece(pieces[0])|);
    }
  }

  /** What is found, in terms of the argument pieces: the first literal with a comma before it, unescaped,
      and where its text starts; nothing exactly when there is no such literal. */
  lemma FirstFallbackIff(pieces: seq<Piece>, offset: nat)
    ensures forall k: nat :: IsFirstAfterComma(pieces, k) ==>
              k < |pieces| && pieces[k].Literal?
              && FirstFallback(pieces, false, offset)
                 == Some((Value(pieces[k].written), offset + |Render(pieces[..k])| + 1))
    ensures FirstFallback(pieces, false, offset).None?
            <==> forall k :: 0 <= k < |pieces| && pieces[k].Literal? ==> Plain(',') !in pieces[..k]
  {
    hide FirstFallback, Render, Value, IsFirstAfterComma;
    forall k: nat | IsFirstAfterComma(pieces, k)
      ensures k < |pieces| && pieces[k].Literal?
      ensures FirstFallback(pieces, false, offset)
              == Some((Value(pieces[k].written), offset + |Render(pieces[..k])| + 1))
    {
      FirstAfterCommaIsFound(pieces, offset, k);
    }
    if k :| 0 <= k < |pieces| && pieces[k].Literal? && Plain(',') in pieces[..k] {
      var first := EarliestAfterComma(pieces, k);
      FirstAfterCommaIsFound(pieces, offset, first);
    } else {
      NoFallbackFrom(pieces, false, offset);
    }
  }

  lemma FirstAfterCommaIsFound(pieces: seq<Piece>, offset: nat, k: nat)
    requires IsFirstAfterComma(pieces, k)
    ensures k < |pieces| && pieces[k].Literal?
    ensures FirstFallback(pieces, false, offset)
            == Some((Value(pieces[k].written), offset + |Render(pieces[..k])| + 1))
  {
    hide FirstFallback, Render, Value;
    FallbackFrom(pieces, false, offset, k);
  }

  lemma {:induction false} EarliestAfterComma(pieces: seq<Piece>, k: nat) returns (first: nat)
    requires k < |pieces| && pieces[k].Literal? && Plain(',') in pieces[..k]
    ensures IsFirstAfterComma(pieces, first)
  {
    if j: nat :| j < k && pieces[j].Literal? && Plain(',') in pieces[..j] {
      first := EarliestAfterComma(pieces, j);
    } else {
      first := k;
    }
  }

  predicate AnyComma(pieces: seq<Piece>) { Plain(',') in pieces }

  /** `text` stands in `source` at `i`. */
  predicate Stands(text: string, source: string, i: nat) { i + |text| <= |source| && source[i..i + |text|] == text }

  lemma StandsParts(a: string, b: string, source: string, i: nat)
    requires Stands(a + b, source, i)
    ensures Stands(a, source, i) && Stands(b, source, i + |a|)
  {
    assert source[i..i + |a|] == (a + b)[..|a|];
    assert source[i + |a|..i + |a| + |b|] == (a + b)[|a|..];
  }

  lemma StandsFirst(c: char, source: string, i: nat)
    requires Stands([c], source, i)
    ensures i < |source| && source[i] == c
  {
    assert source[i..i + 1][0] == source[i];
  }

  function Spelled(w: Written): string { if w.escaped then ['\\', w.c] else [w.c] }

  lemma ReadsOne(w: Written, quote: char, source: string, i: nat)
    requires Stands(Spelled(w), source, i) && IsQuote(quote) && (w.escaped || (w.c != quote && w.c != '\\'))
    ensures var rest := ReadLiteral(source, i + |Spelled(w)|, quote);
            ReadLiteral(source, i, quote) == ([w.c] + rest.0, rest.1)
  {
    assert source[i..i + |Spelled(w)|] == Spelled(w);
    assert source[i] == Spelled(w)[0];
    if w.escaped { assert source[i + 1] == Spelled(w)[1] == w.c; }
  }

  lemma ReadsEnd(quote: char, source: string, i: nat)
    requires Stands([quote], source, i)
    ensures ReadLiteral(source, i, quote) == ("", i)
  {
    StandsFirst(quote, source, i);
  }

  lemma {:induction false} ReadsWritten(written: seq<Written>, quote: char, source: string, i: nat)
    requires WellWritten(written, quote) && IsQuote(quote) && Stands(WrittenText(written) + [quote], source, i)
    ensures ReadLiteral(source, i, quote) == (Value(written), i + |WrittenText(written)|)
  {
    hide Stands, ReadLiteral, IsQuote, Spelled;
    if written == [] {
      assert WrittenText(written) + [quote] == [quote];
      ReadsEnd(quote, source, i);
    } else {
      var tail := written[1..];
      assert WrittenText(written) + [quote] == Spelled(written[0]) + (WrittenText(tail) + [quote]);
      StandsParts(Spelled(written[0]), WrittenText(tail) + [quote], source, i);
      ReadsOne(written[0], quote, source, i);
      assert forall k :: 0 <= k < |tail| ==> tail[k] == written[k + 1];
      ReadsWritten(tail, quote, source, i + |Spelled(written[0])|);
      assert Value(written) == [written[0].c] + Value(tail);
    }
  }

  lemma ScanLiteral(quote: char, written: seq<Written>, source: string, i: nat, depth: int, seenComma: bool)
    requires IsQuote(quote) && WellWritten(written, quote) && depth >= 1
            && Stands([quote] + WrittenText(written) + [quote], source, i)
    ensures Scan(source, i, depth, seenComma)
            == if depth == 1 && seenComma then Some((Value(written), i + 1))
               else Scan(source, i + |WrittenText(written)| + 2, depth, seenComma)
  {
    hide Stands;
    var text := WrittenText(written);
    assert [quote] + text + [quote] == [quote] + (text + [quote]);
    StandsParts([quote], text + [quote], source, i);
    StandsFirst(quote, source, i);
    ReadsWritten(written, quote, source, i + 1);
  }

  lemma {:induction false} ScanPiece(p: Piece, source: string, i: nat, depth: int, seenComma: bool)
    requires WellFormedPiece(p) && depth >= 1 && Stands(RenderPiece(p), source, i)
    ensures Scan(source, i, depth, seenComma)
            == if p.Literal? && depth == 1 && seenComma then Some((Value(p.written), i + 1))
               else Scan(source, i + |RenderPiece(p)|, depth, seenComma || (p == Plain(',') && depth == 1))
    decreases p
  {
    match p {
      case Plain(c) =>
        hide Stands, FirstFallback, AnyComma;
        StandsFirst(c, source, i);
      case Literal(quote, written) =>
        hide Stands, FirstFallback, AnyComma;
        ScanLiteral(quote, written, source, i, depth, seenComma);
      case Group(opening, body, closing) =>
        hide Stands, FirstFallback, AnyComma;
        assert RenderPiece(p) == [opening] + (Render(body) + [closing]);
        StandsParts([opening], Render(body) + [closing], source, i);
        StandsParts(Render(body), [closing], source, i + 1);
        StandsFirst(opening, source, i);
        StandsFirst(closing, source, i + 1 + |Render(body)|);
        ScanPieces(body, source, i + 1, depth + 1, seenComma);
    }
  }

  /** Inside brackets nothing is found; at the top level the first fallback is, or the scan goes on
      behind the pieces, knowing whether a comma was among them. */
  lemma {:induction false} ScanPieces(pieces: seq<Piece>, source: string, i: nat, depth: int, seenComma: bool)
    requires WellFormed(pieces) && depth >= 1 && Stands(Render(pieces), source, i)
    ensures var end := i + |Render(pieces)|;
            && (depth > 1 ==> Scan(source, i, depth, seenComma) == Scan(source, end, depth, seenComma))
            && (depth == 1 ==> var first := FirstFallback(pieces, seenComma, i);
                               Scan(source, i, depth, seenComma)
                               == if first.Some? then first else Scan(source, end, 1, seenComma || AnyComma(pieces)))
    decreases pieces
  {
    if pieces != [] {
      var p, rest := pieces[0], pieces[1..];
      assert pieces == [p] + rest;
      StandsParts(RenderPiece(p), Render(rest), source, i);
      ScanPiece(p, source, i, depth, seenComma);
      var seen := seenComma || (p == Plain(',') && depth == 1);
      ScanPieces(rest, source, i + |RenderPiece(p)|, depth, seen);
    }
  }

  /** In every text that holds a closed call, scanning from its parenthesis finds exactly the first
      quoted literal among the arguments after the first, unescaped, and where its text starts;
      and nothing if there is none. */
  lemma ExtractsFallback(source: string, openParen: nat, opening: char, pieces: seq<Piece>, closing: char)
    requires WellFormedPiece(Group(opening, pieces, closing))
            && Stands(RenderPiece(Group(opening, pieces, closing)), source, openParen)
    ensures Scan(source, openParen, 0, false) == FirstFallback(pieces, false, openParen + 1)
  {
    assert RenderPiece(Group(opening, pieces, closing)) == [opening] + (Render(pieces) + [closing]);
    StandsParts([opening], Render(pieces) + [closing], source, openParen);
    StandsParts(Render(pieces), [closing], source, openParen + 1);
    StandsFirst(opening, source, openParen);
    StandsFirst(closing, source, openParen + 1 + |Render(pieces)|);
    ScanPieces(pieces, source, openParen + 1, 1, false);
  }

  function AsWritten(text: string): (written: seq<Written>)
    ensures |written| == |text| && forall k :: 0 <= k < |text| ==> written[k] == Written(false, text[k])
  {
    seq(|text|, k requires 0 <= k < |text| => Written(false, text[k]))
  }

  lemma {:induction false} AsWrittenText(text: string)
    ensures WrittenText(AsWritten(text)) == text && Value(AsWritten(text)) == text
  {
    if text != "" {
      AsWrittenText(text[1..]);
      assert AsWritten(text)[1..] == AsWritten(text[1..]);
      assert text == [text[0]] + text[1..];
    }
  }

  /** A second argument in any of the three kinds of quote, in any of the three kinds of bracket, is found. */
  lemma SecondArgumentIsFound(opening: char, closing: char, quote: char, text: string)
    requires opening in {'(', '[', '{'} && closing in {')', ']', '}'} && quote in {'"', '\'', '`'}
    requires quote !in text && '\\' !in text
    ensures Scan([opening] + "a," + [quote] + text + [quote] + [closing], 0, 0, false) == Some((text, 4))
  {
    var source := [opening] + "a," + [quote] + text + [quote] + [closing];
    var literal := Literal(quote, AsWritten(text));
    AsWrittenText(text);
    hide Scan, Value, WrittenText;
    var pieces := [Plain('a'), Plain(','), literal];
    ThreePieces(Plain('a'), Plain(','), literal);
    assert RenderPiece(literal) == [quote] + text + [quote];
    assert [opening] + Render(pieces) + [closing] == source;
    hide Render;
    assert source[0..|source|] == source;
    assert pieces[..2] == [Plain('a'), Plain(',')] && Render(pieces[..2]) == "a," by { TwoPlain('a', ','); }
    ExtractsFallback(source, 0, opening, pieces, closing);
    assert Plain(',') in pieces[..2];
    FallbackFrom(pieces, false, 1, 2);
  }

  lemma TwoPlain(a: char, b: char)
    ensures Render([Plain(a), Plain(b)]) == [a, b]
  {
    assert [Plain(a), Plain(b)][1..] == [Plain(b)] && [Plain(b)][1..] == [];
    assert Render([Plain(b)]) == [b];
  }

  lemma ThreePieces(p: Piece, q: Piece, r: Piece)
    ensures Render([p, q, r]) == RenderPiece(p) + RenderPiece(q) + RenderPiece(r)
    ensures WellFormed([p, q, r]) <==> WellFormedPiece(p) && WellFormedPiece(q) && WellFormedPiece(r)
  {
    assert [p, q, r][1..] == [q, r] && [q, r][1..] == [r] && [r][1..] == [];
    assert Render([r]) == RenderPiece(r) + "" == RenderPiece(r);
    assert Render([q, r]) == RenderPiece(q) + RenderPiece(r);
    hide WellFormedPiece;
    assert WellFormed([r]) <==> WellFormedPiece(r);
    assert WellFormed([q, r]) <==> WellFormedPiece(q) && WellFormedPiece(r);
  }

  // ---------------------------------------------------------------- calls that never close

  /** How a source gives out inside a call: between pieces, in a literal (perhaps right after a
      backslash), or inside a bracket. */
  datatype Tail =
    | End
    | OpenLiteral(quote: char, written: seq<Written>, dangling: bool)
    | OpenGroup(opening: char, pieces: seq<Piece>, tail: Tail)

  ghost predicate WellFormedTail(t: Tail) {
    match t
    case End => true
    case OpenLiteral(quote, written, _) => IsQuote(quote) && WellWritten(written, quote)
    case OpenGroup(opening, pieces, tail) => IsOpen(opening) && WellFormed(pieces) && WellFormedTail(tail)
  }

  function OpenText(written: seq<Written>, dangling: bool): string {
    WrittenText(written) + if dangling then "\\" else ""
  }

  function RenderTail(t: Tail): string {
    match t
    case End => ""
    case OpenLiteral(quote, written, dangling) => [quote] + OpenText(written, dangling)
    case OpenGroup(opening, pieces, tail) => [opening] + Render(pieces) + RenderTail(tail)
  }

  /** `text` stands in `source` at `i` and ends it. */
  predicate Closes(text: string, source: string, i: nat) { Stands(text, source, i) && i + |text| == |source| }

  lemma ReadsNothing(dangling: bool, quote: char, source: string, i: nat)
    requires IsQuote(quote) && Closes(OpenText([], dangling), source, i)
    ensures ReadLiteral(source, i, quote).0 == "" == Value([]) && ReadLiteral(source, i, quote).1 >= |source|
  {
    if dangling { StandsFirst('\\', source, i); }
  }

  lemma ScanOpenLiteral(quote: char, written: seq<Written>, dangling: bool, source: string, i: nat, depth: int,
      seenComma: bool)
    requires IsQuote(quote) && WellWritten(written, quote) && Closes([quote] + OpenText(written, dangling), source, i)
    ensures Scan(source, i, depth, seenComma) == if depth == 1 && seenComma then Some((Value(written), i + 1)) else None
  {
    hide Stands, ReadLiteral;
    StandsParts([quote], OpenText(written, dangling), source, i);
    StandsFirst(quote, source, i);
    ReadsOpen(written, dangling, quote, source, i + 1);
  }

  lemma {:induction false} ReadsOpen(written: seq<Written>, dangling: bool, quote: char, source: string, i: nat)
    requires WellWritten(written, quote) && IsQuote(quote) && Closes(OpenText(written, dangling), source, i)
    ensures ReadLiteral(source, i, quote).0 == Value(written) && ReadLiteral(source, i, quote).1 >= |source|
  {
    hide Stands, ReadLiteral, IsQuote, Spelled;
    if written == [] {
      ReadsNothing(dangling, quote, source, i);
    } else {
      var tail := written[1..];
      assert OpenText(written, dangling) == Spelled(written[0]) + OpenText(tail, dangling);
      StandsParts(Spelled(written[0]), OpenText(tail, dangling), source, i);
      ReadsOne(written[0], quote, source, i);
      assert forall k :: 0 <= k < |tail| ==> tail[k] == written[k + 1];
      ReadsOpen(tail, dangling, quote, source, i + |Spelled(written[0])|);
      assert Value(written) == [written[0].c] + Value(tail);
    }
  }

  lemma ScanBracket(opening: char, source: string, i: nat, depth: int, seenComma: bool)
    requires IsOpen(opening) && Stands([opening], source, i)
    ensures Scan(source, i, depth, seenComma) == Scan(source, i + 1, depth + 1, seenComma)
  {
    StandsFirst(opening, source, i);
  }

  lemma ScanEnd(source: string, i: nat, depth: int, seenComma: bool)
    requires Closes("", source, i)
    ensures Scan(source, i, depth, seenComma) == None
  {
  }

  /** A source that gives out yields nothing more, but for a literal left open at the top level
      after a comma. */
  lemma {:induction false} ScanTail(t: Tail, source: string, i: nat, depth: int, seenComma: bool)
    requires WellFormedTail(t) && depth >= 1 && Closes(RenderTail(t), source, i)
    ensures Scan(source, i, depth, seenComma)
            == if t.OpenLiteral? && depth == 1 && seenComma then Some((Value(t.written), i + 1)) else None
  {
    hide Stands, Scan, FirstFallback, AnyComma, IsOpen, IsQuote;
    match t {
      case End =>
        ScanEnd(source, i, depth, seenComma);
      case OpenLiteral(quote, written, dangling) =>
        ScanOpenLiteral(quote, written, dangling, source, i, depth, seenComma);
      case OpenGroup(opening, pieces, tail) =>
        assert RenderTail(t) == [opening] + (Render(pieces) + RenderTail(tail));
        StandsParts([opening], Render(pieces) + RenderTail(tail), source, i);
        StandsParts(Render(pieces), RenderTail(tail), source, i + 1);
        ScanBracket(opening, source, i, depth, seenComma);
        ScanPieces(pieces, source, i + 1, depth + 1, seenComma);
        ScanTail(tail, source, i + 1 + |Render(pieces)|, depth + 1, seenComma);
    }
  }

  /** Where the parts of a bracket that never closes stand. */
  lemma OpenGroupParts(source: string, i: nat, opening: char, pieces: seq<Piece>, tail: Tail)
    requires Closes(RenderTail(OpenGroup(opening, pieces, tail)), source, i)
    ensures Stands([opening], source, i) && Stands(Render(pieces), source, i + 1)
    ensures Closes(RenderTail(tail), source, i + 1 + |Render(pieces)|)
  {
    hide Stands, Render;
    assert RenderTail(OpenGroup(opening, pieces, tail)) == [opening] + (Render(pieces) + RenderTail(tail));
    StandsParts([opening], Render(pieces) + RenderTail(tail), source, i);
    StandsParts(Render(pieces), RenderTail(tail), source, i + 1);
  }

  /** In a call that never closes: the first fallback, else the literal the source breaks off in if
      it is an argument after the first, else nothing. */
  lemma ExtractsFromOpenCall(source: string, openParen: nat, opening: char, pieces: seq<Piece>, tail: Tail)
    requires WellFormedTail(OpenGroup(opening, pieces, tail))
            && Closes(RenderTail(OpenGroup(opening, pieces, tail)), source, openParen)
    ensures var first := FirstFallback(pieces, false, openParen + 1);
            Scan(source, openParen, 0, false)
            == if first.Some? then first
               else if tail.OpenLiteral? && AnyComma(pieces)
               then Some((Value(tail.written), openParen + |Render(pieces)| + 2))
               else None
  {
    hide Closes, Stands, Scan, FirstFallback, AnyComma, IsOpen, IsQuote, Render, RenderTail, WellFormed;
    OpenGroupParts(source, openParen, opening, pieces, tail);
    ScanBracket(opening, source, openParen, 0, false);
    ScanPieces(pieces, source, openParen + 1, 1, false);
    ScanTail(tail, source, openParen + 1 + |Render(pieces)|, 1, AnyComma(pieces));
  }

  // ---------------------------------------------------------------- every text is one or the other

  lemma StandsJoined(a: string, b: string, source: string, i: nat)
    requires Stands(a, source, i) && Stands(b, source, i + |a|)
    ensures Stands(a + b, source, i)
  {
    assert source[i..i + |a + b|] == source[i..i + |a|] + source[i + |a|..i + |a| + |b|];
  }

  lemma StandsOne(source: string, i: nat)
    requires i < |source|
    ensures Stands([source[i]], source, i)
  {
  }

  /** What a literal's text is from `i` on: closed by its quote, or broken off by the end. */
  lemma {:induction false} ParseLiteral(source: string, i: nat, quote: char)
    returns (written: seq<Written>, closed: bool, dangling: bool)
    requires i <= |source| && IsQuote(quote)
    ensures WellWritten(written, quote)
    ensures closed ==> Stands(WrittenText(written) + [quote], source, i)
    ensures !closed ==> Closes(OpenText(written, dangling), source, i)
    decreases |source| - i
  {
    hide Stands, Closes, WellWritten, WrittenText, OpenText, Spelled;
    closed, dangling, written := false, false, [];
    if i == |source| {
      LiteralStops(source, i, quote);
    } else if source[i] == quote {
      closed := true;
      LiteralCloses(source, i, quote);
    } else if source[i] == '\\' && i + 1 == |source| {
      dangling := true;
      LiteralStops(source, i, quote);
    } else {
      var one := if source[i] == '\\' then Written(true, source[i + 1]) else Written(false, source[i]);
      OneReads(one, source, i, quote);
      var tail;
      tail, closed, dangling := ParseLiteral(source, i + |Spelled(one)|, quote);
      written := [one] + tail;
      if closed {
        OneMoreClosed(one, tail, source, i, quote);
      } else {
        OneMoreOpen(one, tail, dangling, source, i);
      }
      OneMoreWell(one, tail, quote);
    }
  }

  /** A literal broken off at the end of the source, or right after a backslash there. */
  lemma LiteralStops(source: string, i: nat, quote: char)
    ensures i == |source| ==> Closes(OpenText([], false), source, i)
    ensures i + 1 == |source| && source[i] == '\\' ==> Closes(OpenText([], true), source, i)
    ensures WellWritten([], quote)
  {
  }

  lemma LiteralCloses(source: string, i: nat, quote: char)
    requires i < |source| && source[i] == quote
    ensures Stands(WrittenText([]) + [quote], source, i) && WellWritten([], quote)
  {
    StandsOne(source, i);
    assert WrittenText([]) + [quote] == [quote];
  }

  lemma OneReads(one: Written, source: string, i: nat, quote: char)
    requires i < |source| && source[i] != quote
    requires if source[i] == '\\' then i + 1 < |source| && one == Written(true, source[i + 1])
             else one == Written(false, source[i])
    ensures Stands(Spelled(one), source, i) && 1 <= |Spelled(one)| <= |source| - i && WellWritten([one], quote)
  {
    assert source[i..i + |Spelled(one)|] == Spelled(one);
  }

  lemma OneMoreWell(one: Written, tail: seq<Written>, quote: char)
    requires WellWritten([one], quote) && WellWritten(tail, quote)
    ensures WellWritten([one] + tail, quote)
  {
    assert [one][0] == one;
  }

  lemma OneMoreClosed(one: Written, tail: seq<Written>, source: string, i: nat, quote: char)
    requires Stands(Spelled(one), source, i) && Stands(WrittenText(tail) + [quote], source, i + |Spelled(one)|)
    ensures Stands(WrittenText([one] + tail) + [quote], source, i)
  {
    hide Stands, Spelled;
    OneMoreWritten(one, tail);
    StandsJoined(Spelled(one), WrittenText(tail) + [quote], source, i);
  }

  lemma OneMoreOpen(one: Written, tail: seq<Written>, dangling: bool, source: string, i: nat)
    requires Stands(Spelled(one), source, i) && Closes(OpenText(tail, dangling), source, i + |Spelled(one)|)
    ensures Closes(OpenText([one] + tail, dangling), source, i)
  {
    hide Stands, Spelled;
    OneMoreWritten(one, tail);
    StandsJoined(Spelled(one), OpenText(tail, dangling), source, i);
  }

  lemma OneMoreWritten(one: Written, tail: seq<Written>)
    ensures forall quote :: WrittenText([one] + tail) + [quote] == Spelled(one) + (WrittenText(tail) + [quote])
    ensures forall dangling :: OpenText([one] + tail, dangling) == Spelled(one) + OpenText(tail, dangling)
  {
    assert ([one] + tail)[1..] == tail;
  }

  /** How the text from `i` on continues: `pieces`, then a closing bracket or the end of the source. */
  ghost predicate Continues(source: string, i: nat, pieces: seq<Piece>, closing: Option<char>, tail: Tail) {
    && WellFormed(pieces) && WellFormedTail(tail)
    && match closing
       case Some(c) => IsClose(c) && Stands(Render(pieces) + [c], source, i)
       case None => Closes(Render(pieces) + RenderTail(tail), source, i)
  }

  /** One piece more in front. */
  lemma ContinuesBefore(p: Piece, source: string, i: nat, pieces: seq<Piece>, closing: Option<char>, tail: Tail)
    requires WellFormedPiece(p) && Stands(RenderPiece(p), source, i)
    requires Continues(source, i + |RenderPiece(p)|, pieces, closing, tail)
    ensures Continues(source, i, [p] + pieces, closing, tail)
  {
    hide Stands, WellFormedPiece, WellFormedTail, RenderPiece, RenderTail, IsClose;
    OneMorePiece(p, pieces);
    hide Render, WellFormed;
    var after := if closing.Some? then [closing.value] else RenderTail(tail);
    StandsJoined(RenderPiece(p), Render(pieces) + after, source, i);
    assert Render([p] + pieces) + after == RenderPiece(p) + (Render(pieces) + after);
  }

  lemma OneMorePiece(p: Piece, pieces: seq<Piece>)
    ensures Render([p] + pieces) == RenderPiece(p) + Render(pieces)
    ensures WellFormed([p] + pieces) <==> WellFormedPiece(p) && WellFormed(pieces)
  {
    assert ([p] + pieces)[1..] == pieces;
  }

  lemma {:induction false} Parse(source: string, i: nat) returns (pieces: seq<Piece>, closing: Option<char>, tail: Tail)
    requires i <= |source|
    ensures Continues(source, i, pieces, closing, tail)
    decreases |source| - i
  {
    pieces, closing, tail := [], None, End;
    if i < |source| {
      var c := source[i];
      StandsOne(source, i);
      if IsClose(c) {
        closing := Some(c);
        assert Render([]) + [c] == [c];
      } else if IsQuote(c) {
        pieces, closing, tail := ParseFromQuote(source, i);
      } else if IsOpen(c) {
        pieces, closing, tail := ParseFromBracket(source, i);
      } else {
        pieces, closing, tail := Parse(source, i + 1);
        ContinuesBefore(Plain(c), source, i, pieces, closing, tail);
        pieces := [Plain(c)] + pieces;
      }
    }
  }

  lemma {:induction false} ParseFromQuote(source: string, i: nat)
    returns (pieces: seq<Piece>, closing: Option<char>, tail: Tail)
    requires i < |source| && IsQuote(source[i])
    ensures Continues(source, i, pieces, closing, tail)
    decreases |source| - i, 0
  {
    var quote := source[i];
    StandsOne(source, i);
    var written, closed, dangling := ParseLiteral(source, i + 1, quote);
    if closed {
      var p := Literal(quote, written);
      StandsJoined([quote], WrittenText(written) + [quote], source, i);
      assert RenderPiece(p) == [quote] + (WrittenText(written) + [quote]);
      pieces, closing, tail := Parse(source, i + |RenderPiece(p)|);
      ContinuesBefore(p, source, i, pieces, closing, tail);
      pieces := [p] + pieces;
    } else {
      pieces, closing, tail := [], None, OpenLiteral(quote, written, dangling);
      StandsJoined([quote], OpenText(written, dangling), source, i);
      assert Render([]) + RenderTail(tail) == [quote] + OpenText(written, dangling);
    }
  }

  lemma {:induction false} ParseFromBracket(source: string, i: nat)
    returns (pieces: seq<Piece>, closing: Option<char>, tail: Tail)
    requires i < |source| && IsOpen(source[i])
    ensures Continues(source, i, pieces, closing, tail)
    decreases |source| - i, 0
  {
    hide Continues, Stands, Render, RenderPiece, RenderTail, IsOpen, WellFormedPiece, WellFormedTail;
    var inner, end, rest := Parse(source, i + 1);
    if end.Some? {
      var p := Group(source[i], inner, end.value);
      ClosedCallStands(source, i, inner, end.value, rest);
      pieces, closing, tail := Parse(source, i + |RenderPiece(p)|);
      ContinuesBefore(p, source, i, pieces, closing, tail);
      pieces := [p] + pieces;
    } else {
      pieces, closing, tail := [], None, OpenGroup(source[i], inner, rest);
      OpenCallStands(source, i, inner, rest);
      ContinuesByTail(source, i, tail);
    }
  }

  lemma ContinuesByTail(source: string, i: nat, tail: Tail)
    requires WellFormedTail(tail) && Closes(RenderTail(tail), source, i)
    ensures Continues(source, i, [], None, tail)
  {
    assert Render([]) + RenderTail(tail) == RenderTail(tail);
  }

  /** Every source with a bracket at `openParen` reads, from there, as a closed call or as one that
      never closes; so one of the two laws gives the scanner's answer. */
  lemma EveryCallIsRead(source: string, openParen: nat) returns (pieces: seq<Piece>, closing: Option<char>, tail: Tail)
    requires openParen < |source| && IsOpen(source[openParen])
    ensures match closing
            case Some(c) =>
              var call := Group(source[openParen], pieces, c);
              WellFormedPiece(call) && Stands(RenderPiece(call), source, openParen)
              && Scan(source, openParen, 0, false) == FirstFallback(pieces, false, openParen + 1)
            case None =>
              var call := OpenGroup(source[openParen], pieces, tail);
              var first := FirstFallback(pieces, false, openParen + 1);
              WellFormedTail(call) && Closes(RenderTail(call), source, openParen)
              && Scan(source, openParen, 0, false)
                 == if first.Some? then first
                    else if tail.OpenLiteral? && AnyComma(pieces)
                    then Some((Value(tail.written), openParen + |Render(pieces)| + 2))
                    else None
  {
    hide Continues, Stands, Scan, FirstFallback, Render, RenderPiece, RenderTail, IsOpen;
    pieces, closing, tail := Parse(source, openParen + 1);
    if closing.Some? {
      ClosedCallIsRead(source, openParen, pieces, closing.value, tail);
    } else {
      OpenCallIsRead(source, openParen, pieces, tail);
    }
  }

  lemma ClosedCallIsRead(source: string, openParen: nat, pieces: seq<Piece>, c: char, tail: Tail)
    requires openParen < |source| && IsOpen(source[openParen])
    requires Continues(source, openParen + 1, pieces, Some(c), tail)
    ensures var call := Group(source[openParen], pieces, c);
            && WellFormedPiece(call) && Stands(RenderPiece(call), source, openParen)
            && Scan(source, openParen, 0, false) == FirstFallback(pieces, false, openParen + 1)
  {
    hide Continues, Stands, Scan, FirstFallback, Render, RenderPiece, IsOpen, WellFormedPiece;
    ClosedCallStands(source, openParen, pieces, c, tail);
    ExtractsFallback(source, openParen, source[openParen], pieces, c);
  }

  lemma ClosedCallStands(source: string, openParen: nat, pieces: seq<Piece>, c: char, tail: Tail)
    requires openParen < |source| && IsOpen(source[openParen])
    requires Continues(source, openParen + 1, pieces, Some(c), tail)
    ensures var call := Group(source[openParen], pieces, c);
            WellFormedPiece(call) && Stands(RenderPiece(call), source, openParen)
            && 2 <= |RenderPiece(call)| <= |source| - openParen
  {
    var opening := source[openParen];
    StandsOne(source, openParen);
    hide Stands, Render, IsOpen, IsClose;
    StandsJoined([opening], Render(pieces) + [c], source, openParen);
    assert RenderPiece(Group(opening, pieces, c)) == [opening] + (Render(pieces) + [c]);
  }

  lemma OpenCallIsRead(source: string, openParen: nat, pieces: seq<Piece>, tail: Tail)
    requires openParen < |source| && IsOpen(source[openParen])
    requires Continues(source, openParen + 1, pieces, None, tail)
    ensures var call, first := OpenGroup(source[openParen], pieces, tail), FirstFallback(pieces, false, openParen + 1);
            && WellFormedTail(call) && Closes(RenderTail(call), source, openParen)
            && Scan(source, openParen, 0, false)
               == if first.Some? then first
                  else if tail.OpenLiteral? && AnyComma(pieces)
                  then Some((Value(tail.written), openParen + |Render(pieces)| + 2))
                  else None
  {
    hide Continues, Stands, Closes, Scan, FirstFallback, Render, RenderTail, IsOpen, WellFormed, WellFormedTail;
    OpenCallStands(source, openParen, pieces, tail);
    ExtractsFromOpenCall(source, openParen, source[openParen], pieces, tail);
  }

  lemma OpenCallStands(source: string, openParen: nat, pieces: seq<Piece>, tail: Tail)
    requires openParen < |source| && IsOpen(source[openParen])
    requires Continues(source, openParen + 1, pieces, None, tail)
    ensures var call := OpenGroup(source[openParen], pieces, tail);
            WellFormedTail(call) && Closes(RenderTail(call), source, openParen)
  {
    var opening := source[openParen];
    StandsOne(source, openParen);
    hide Stands, Render, IsOpen, WellFormed;
    StandsJoined([opening], Render(pieces) + RenderTail(tail), source, openParen);
    assert RenderTail(OpenGroup(opening, pieces, tail)) == [opening] + (Render(pieces) + RenderTail(tail));
  }
}
