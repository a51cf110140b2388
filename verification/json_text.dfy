/** JSON as Python's `json` module writes it (`ensure_ascii=True`) and reads it back:
    sections 2 to 7 of RFC 8259, plus the NaN and Infinity literals the reader accepts.
    Text is a sequence of code points, so that lone surrogates, which a Python string may
    hold and a Dafny `char` may not, are covered. */
module Json {
  import opened Strings

  type Code = c: int | 0 <= c < 0x110000
  type Text = seq<Code>

  function C(c: char): Code { c as int }

  function T(s: string): (t: Text)
    ensures |t| == |s| && forall i :: 0 <= i < |s| ==> t[i] == C(s[i])
  {
    seq(|s|, i requires 0 <= i < |s| => C(s[i]))
  }

  datatype Value =
    | Null
    | Bool(b: bool)
    | Num(digits: Text)
    | Str(s: Text)
    | Arr(items: seq<Value>)
    | Obj(members: seq<Member>)

  datatype Member = Member(key: Text, value: Value)

  // ---------------------------------------------------------------- writing

  function HexDigit(d: int): Code
    requires 0 <= d < 16
  {
    if d < 10 then C('0') + d else C('a') + (d - 10)
  }

  function Hex4(n: int): (t: Text)
    requires 0 <= n < 0x10000
    ensures |t| == 4
  {
    [HexDigit(n / 16 / 16 / 16), HexDigit(n / 16 / 16 % 16), HexDigit(n / 16 % 16), HexDigit(n % 16)]
  }

  function UEscape(n: int): (t: Text)
    requires 0 <= n < 0x10000
    ensures |t| == 6 && t[0] == C('\\')
  {
    [C('\\'), C('u')] + Hex4(n)
  }

  /** The letter of a two-character escape, where JSON has one for `c`. */
  function ShortEscape(c: Code): Option<Code> {
    if c == C('"') || c == C('\\') then Some(c)
    else if c == 8 then Some(C('b'))
    else if c == 12 then Some(C('f'))
    else if c == 10 then Some(C('n'))
    else if c == 13 then Some(C('r'))
    else if c == 9 then Some(C('t'))
    else None
  }

  function EncodeChar(c: Code): (t: Text)
    ensures t != []
  {
    if ShortEscape(c).Some? then [C('\\'), ShortEscape(c).value]
    else if 32 <= c <= 126 then [c]
    else if c < 0x10000 then UEscape(c)
    else UEscape(0xD800 + (c - 0x10000) / 1024) + UEscape(0xDC00 + (c - 0x10000) % 1024)
  }

  function EncodeChars(s: Text): Text {
    if s == [] then [] else EncodeChar(s[0]) + EncodeChars(s[1..])
  }

  function EncodeString(s: Text): Text {
    [C('"')] + EncodeChars(s) + [C('"')]
  }

  function Encode(v: Value): Text
    decreases v, 1
  {
    match v
    case Null => T("null")
    case Bool(b) => if b then T("true") else T("false")
    case Num(digits) => digits
    case Str(s) => EncodeString(s)
    case Arr(items) => [C('[')] + EncodeItems(items) + [C(']')]
    case Obj(members) => [C('{')] + EncodeMembers(members) + [C('}')]
  }

  function EncodeItems(items: seq<Value>): Text
    decreases items, 0
  {
    if items == [] then []
    else if |items| == 1 then Encode(items[0])
    else Encode(items[0]) + [C(','), C(' ')] + EncodeItems(items[1..])
  }

  function EncodeMembers(members: seq<Member>): Text
    decreases members, 0
  {
    if members == [] then []
    else if |members| == 1 then EncodeMember(members[0])
    else EncodeMember(members[0]) + [C(','), C(' ')] + EncodeMembers(members[1..])
  }

  function EncodeMember(m: Member): Text
    decreases m, 2
  {
    EncodeString(m.key) + [C(':'), C(' ')] + Encode(m.value)
  }

  // ---------------------------------------------------------------- reading

  /** What a reader made of the start of a text, and the text after it. */
  datatype Parsed<A> = Fail | Ok(value: A, rest: Text)

  predicate IsBlank(c: Code) { c == 32 || c == 9 || c == 10 || c == 13 }

  function SkipBlanks(r: Text): (rest: Text)
    ensures |rest| <= |r|
  {
    if r != [] && IsBlank(r[0]) then SkipBlanks(r[1..]) else r
  }

  function HexValue(c: Code): (v: Option<int>)
    ensures v.Some? ==> 0 <= v.value < 16
  {
    if C('0') <= c <= C('9') then Some(c - C('0'))
    else if C('a') <= c <= C('f') then Some(c - C('a') + 10)
    else if C('A') <= c <= C('F') then Some(c - C('A') + 10)
    else None
  }

  function ReadHex4(r: Text): (n: Option<int>)
    ensures n.Some? ==> |r| >= 4 && 0 <= n.value < 0x10000
  {
    if |r| < 4 then None
    else
      var a, b, c, d := HexValue(r[0]), HexValue(r[1]), HexValue(r[2]), HexValue(r[3]);
      if a.Some? && b.Some? && c.Some? && d.Some? then
        Some(((a.value * 16 + b.value) * 16 + c.value) * 16 + d.value)
      else None
  }

  predicate IsHigh(n: int) { 0xD800 <= n < 0xDC00 }
  predicate IsLow(n: int) { 0xDC00 <= n < 0xE000 }

  function Unescape(letter: Code): Option<Code> {
    if letter == C('"') || letter == C('\\') || letter == C('/') then Some(letter)
    else if letter == C('b') then Some(8)
    else if letter == C('f') then Some(12)
    else if letter == C('n') then Some(10)
    else if letter == C('r') then Some(13)
    else if letter == C('t') then Some(9)
    else None
  }

  predicate StartsUEscape(r: Text) { |r| >= 2 && r[0] == C('\\') && r[1] == C('u') }

  /** One character of a string body, escapes and surrogate pairs resolved. */
  function NextChar(r: Text): (p: Parsed<Code>)
    requires r != [] && r[0] != C('"')
    ensures p.Ok? ==> |p.rest| < |r|
  {
    if r[0] != C('\\') then (if r[0] < 32 then Fail else Ok(r[0], r[1..]))
    else if |r| < 2 then Fail
    else if r[1] != C('u') then
      var c := Unescape(r[1]);
      if c.None? then Fail else Ok(c.value, r[2..])
    else
      var n := ReadHex4(r[2..]);
      if n.None? then Fail
      else
        var rest := r[6..];
        if IsHigh(n.value) && StartsUEscape(rest) then
          var m := ReadHex4(rest[2..]);
          if m.None? then Fail
          else if IsLow(m.value) then
            Ok(0x10000 + (n.value - 0xD800) * 1024 + (m.value - 0xDC00), rest[6..])
          else Ok(n.value, rest)
        else Ok(n.value, rest)
  }

  /** A string body up to and over its closing quote. */
  function ReadString(r: Text): (p: Parsed<Text>)
    ensures p.Ok? ==> |p.rest| < |r|
    decreases |r|
  {
    if r == [] then Fail
    else if r[0] == C('"') then Ok([], r[1..])
    else
      var c := NextChar(r);
      if c.Fail? then Fail
      else
        var tail := ReadString(c.rest);
        if tail.Fail? then Fail else Ok([c.value] + tail.value, tail.rest)
  }

  predicate IsDigit(c: Code) { C('0') <= c <= C('9') }

  function Digits(r: Text): (n: nat)
    ensures n <= |r| && (n < |r| ==> !IsDigit(r[n]))
  {
    if r != [] && IsDigit(r[0]) then 1 + Digits(r[1..]) else 0
  }

  function IntegerLength(r: Text): (n: nat)
    ensures n <= |r|
  {
    if r != [] && r[0] == C('-') then
      var n := IntegerLength0(r[1..]);
      if n == 0 then 0 else n + 1
    else IntegerLength0(r)
  }

  function IntegerLength0(r: Text): (n: nat)
    ensures n <= |r|
  {
    if r == [] then 0 else if r[0] == C('0') then 1 else Digits(r)
  }

  function FractionLength(r: Text): (n: nat)
    ensures n <= |r|
  {
    if r != [] && r[0] == C('.') && Digits(r[1..]) > 0 then 1 + Digits(r[1..]) else 0
  }

  function ExponentLength(r: Text): (n: nat)
    ensures n <= |r|
  {
    if r == [] || (r[0] != C('e') && r[0] != C('E')) then 0
    else if |r| > 1 && (r[1] == C('-') || r[1] == C('+')) then
      (if Digits(r[2..]) > 0 then 2 + Digits(r[2..]) else 0)
    else if Digits(r[1..]) > 0 then 1 + Digits(r[1..])
    else 0
  }

  /** The longest number at the start of the text, zero where there is none. */
  function NumberLength(r: Text): (n: nat)
    ensures n <= |r|
  {
    var i := IntegerLength(r);
    if i == 0 then 0
    else
      var f := FractionLength(r[i..]);
      i + f + ExponentLength(r[i + f..])
  }

  predicate Spells(r: Text, word: string) {
    |word| <= |r| && forall i :: 0 <= i < |word| ==> r[i] == C(word[i])
  }

  /** The literal the text starts with, empty if none. */
  function LiteralWord(r: Text): (word: string)
    ensures Spells(r, word)
  {
    if Spells(r, "null") then "null"
    else if Spells(r, "true") then "true"
    else if Spells(r, "false") then "false"
    else if Spells(r, "NaN") then "NaN"
    else if Spells(r, "Infinity") then "Infinity"
    else if Spells(r, "-Infinity") then "-Infinity"
    else ""
  }

  function ReadLiteral(r: Text): (p: Parsed<Value>)
    ensures p.Ok? ==> |p.rest| < |r|
  {
    var word := LiteralWord(r);
    if word == "" then Fail
    else
      var v := if word == "null" then Null
               else if word == "true" then Bool(true)
               else if word == "false" then Bool(false)
        else Num(r[..|word|]);
      Ok(v, r[|word|..])
  }

  function ReadScalar(r: Text): (p: Parsed<Value>)
    ensures p.Ok? ==> |p.rest| < |r|
  {
    var n := NumberLength(r);
    if n > 0 then Ok(Num(r[..n]), r[n..]) else ReadLiteral(r)
  }

  function ReadValue(r: Text): (p: Parsed<Value>)
    ensures p.Ok? ==> |p.rest| < |r|
    decreases |r|, 0
  {
    if r == [] then Fail
    else if r[0] == C('"') then
      var s := ReadString(r[1..]);
      if s.Fail? then Fail else Ok(Str(s.value), s.rest)
    else if r[0] == C('[') then
      var next := SkipBlanks(r[1..]);
      if next != [] && next[0] == C(']') then Ok(Arr([]), next[1..])
      else
        var items := ReadItems(next);
        if items.Fail? then Fail else Ok(Arr(items.value), items.rest)
    else if r[0] == C('{') then
      var next := SkipBlanks(r[1..]);
      if next != [] && next[0] == C('}') then Ok(Obj([]), next[1..])
      else
        var members := ReadMembers(next);
        if members.Fail? then Fail else Ok(Obj(members.value), members.rest)
    else ReadScalar(r)
  }

  /** Array items, from the first value over the closing bracket. */
  function ReadItems(r: Text): (p: Parsed<seq<Value>>)
    ensures p.Ok? ==> |p.rest| < |r|
    decreases |r|, 1
  {
    var v := ReadValue(r);
    if v.Fail? then Fail
    else
      var next := SkipBlanks(v.rest);
      if next == [] then Fail
      else if next[0] == C(']') then Ok([v.value], next[1..])
      else if next[0] == C(',') then
        var more := ReadItems(SkipBlanks(next[1..]));
        if more.Fail? then Fail else Ok([v.value] + more.value, more.rest)
      else Fail
  }

  /** Object members, from the first key over the closing brace. */
  function ReadMembers(r: Text): (p: Parsed<seq<Member>>)
    ensures p.Ok? ==> |p.rest| < |r|
    decreases |r|, 1
  {
    if r == [] || r[0] != C('"') then Fail
    else
      var key := ReadString(r[1..]);
      if key.Fail? then Fail
      else
        var colon := SkipBlanks(key.rest);
        if colon == [] || colon[0] != C(':') then Fail
        else
          var v := ReadValue(SkipBlanks(colon[1..]));
          if v.Fail? then Fail
          else
            var next := SkipBlanks(v.rest);
            if next == [] then Fail
            else if next[0] == C('}') then Ok([Member(key.value, v.value)], next[1..])
            else if next[0] == C(',') then
              var more := ReadMembers(SkipBlanks(next[1..]));
              if more.Fail? then Fail else Ok([Member(key.value, v.value)] + more.value, more.rest)
            else Fail
  }

  /** `json.loads`: one value, nothing but blanks around it. */
  function Loads(text: Text): Option<Value> {
    var v := ReadValue(SkipBlanks(text));
    if v.Ok? && SkipBlanks(v.rest) == [] then Some(v.value) else None
  }

  // ---------------------------------------------------------------- reading undoes writing

  /** What a string becomes on its way through JSON: a high surrogate directly followed by a
      low one comes back as the one character the two stand for. */
  function Merge(s: Text): Text {
    if |s| >= 2 && IsHigh(s[0]) && IsLow(s[1]) then
      [0x10000 + (s[0] - 0xD800) * 1024 + (s[1] - 0xDC00)] + Merge(s[2..])
    else if s == [] then []
    else [s[0]] + Merge(s[1..])
  }

  predicate NoPairs(s: Text) {
    forall i :: 0 <= i < |s| - 1 ==> !(IsHigh(s[i]) && IsLow(s[i + 1]))
  }

  lemma {:induction false} MergeShrinks(s: Text)
    ensures |Merge(s)| <= |s|
  {
    if |s| >= 2 && IsHigh(s[0]) && IsLow(s[1]) { MergeShrinks(s[2..]); } else if s != [] { MergeShrinks(s[1..]); }
  }

  /** A string is unharmed exactly when it holds no such pair. */
  lemma {:induction false} MergeFixedIff(s: Text)
    ensures Merge(s) == s <==> NoPairs(s)
  {
    if |s| >= 2 && IsHigh(s[0]) && IsLow(s[1]) {
      MergeShrinks(s[2..]);
    } else if s != [] {
      MergeFixedIff(s[1..]);
      assert s == [s[0]] + s[1..];
      assert Merge(s)[1..] == Merge(s[1..]);
      if NoPairs(s[1..]) {
        forall i | 0 <= i < |s| - 1 ensures !(IsHigh(s[i]) && IsLow(s[i + 1])) {
          if i > 0 { assert !(IsHigh(s[1..][i - 1]) && IsLow(s[1..][i])); }
        }
      }
      if NoPairs(s) {
        forall i | 0 <= i < |s[1..]| - 1 ensures !(IsHigh(s[1..][i]) && IsLow(s[1..][i + 1])) {
          assert !(IsHigh(s[i + 1]) && IsLow(s[i + 2]));
        }
      }
    }
  }

  function MergeValue(v: Value): Value
    decreases v, 1
  {
    match v
    case Str(s) => Str(Merge(s))
    case Arr(items) => Arr(MergeItems(items))
    case Obj(members) => Obj(MergeMembers(members))
    case _ => v
  }

  function MergeItems(items: seq<Value>): (r: seq<Value>)
    ensures |r| == |items|
    decreases items, 0
  {
    if items == [] then [] else [MergeValue(items[0])] + MergeItems(items[1..])
  }

  function MergeMembers(members: seq<Member>): (r: seq<Member>)
    ensures |r| == |members|
    decreases members, 0
  {
    if members == [] then [] else [MergeMember(members[0])] + MergeMembers(members[1..])
  }

  function MergeMember(m: Member): Member
    decreases m, 2
  {
    Member(Merge(m.key), MergeValue(m.value))
  }

  /** Built of strings, arrays and objects only. */
  predicate Plain(v: Value)
    decreases v, 1
  {
    match v
    case Str(_) => true
    case Arr(items) => forall i :: 0 <= i < |items| ==> Plain(items[i])
    case Obj(members) => forall i :: 0 <= i < |members| ==> Plain(members[i].value)
    case _ => false
  }

  lemma HexDigitValue(d: int)
    requires 0 <= d < 16
    ensures HexValue(HexDigit(d)) == Some(d)
  {
  }

  lemma HexRoundTrip(n: int, rest: Text)
    requires 0 <= n < 0x10000
    ensures ReadHex4(Hex4(n) + rest) == Some(n)
  {
    var t := Hex4(n) + rest;
    var m, k := n / 16, n / 16 / 16;
    HexDigitValue(k / 16);
    HexDigitValue(k % 16);
    HexDigitValue(m % 16);
    HexDigitValue(n % 16);
    assert t[0] == HexDigit(k / 16) && t[1] == HexDigit(k % 16) && t[2] == HexDigit(m % 16) && t[3] == HexDigit(n % 16);
    assert k / 16 * 16 + k % 16 == k && k * 16 + m % 16 == m && m * 16 + n % 16 == n;
  }

  lemma NextUEscape(n: int, rest: Text)
    requires 0 <= n < 0x10000
    requires IsHigh(n) && StartsUEscape(rest) ==> ReadHex4(rest[2..]).Some? && !IsLow(ReadHex4(rest[2..]).value)
    ensures NextChar(UEscape(n) + rest) == Ok(n, rest)
  {
    var t := UEscape(n) + rest;
    HexRoundTrip(n, rest);
    assert t[2..] == Hex4(n) + rest;
    assert t[6..] == rest;
  }

  lemma NextPair(n: int, m: int, rest: Text)
    requires IsHigh(n) && IsLow(m)
    ensures (UEscape(n) + UEscape(m) + rest)[0] != C('"')
    ensures NextChar(UEscape(n) + UEscape(m) + rest) == Ok(0x10000 + (n - 0xD800) * 1024 + (m - 0xDC00), rest)
  {
    var t := UEscape(n) + UEscape(m) + rest;
    assert t == UEscape(n) + (UEscape(m) + rest);
    UEscapeReads(n, UEscape(m) + rest);
    UEscapeReads(m, rest);
    hide UEscape, ReadHex4;
  }

  lemma UEscapeReads(n: int, rest: Text)
    requires 0 <= n < 0x10000
    ensures var t := UEscape(n) + rest;
            |t| >= 6 && t[0] == C('\\') && t[1] == C('u') && ReadHex4(t[2..]) == Some(n) && t[6..] == rest
  {
    HexRoundTrip(n, rest);
    var t := UEscape(n) + rest;
    assert t[2..] == Hex4(n) + rest;
  }

  /** What follows does not continue a surrogate pair begun by `c`. */
  predicate NotCompleting(c: Code, rest: Text) {
    IsHigh(c) && StartsUEscape(rest) ==> ReadHex4(rest[2..]).Some? && !IsLow(ReadHex4(rest[2..]).value)
  }

  lemma NextShortEscape(c: Code, rest: Text)
    requires ShortEscape(c).Some?
    ensures NextChar([C('\\'), ShortEscape(c).value] + rest) == Ok(c, rest)
  {
    var letter := ShortEscape(c).value;
    var t := [C('\\'), letter] + rest;
    assert t[0] == C('\\') && t[1] == letter && t[2..] == rest;
    assert letter != C('u') && Unescape(letter) == Some(c);
  }

  lemma NextAstral(c: Code, rest: Text)
    requires c >= 0x10000
    ensures NextChar(UEscape(0xD800 + (c - 0x10000) / 1024) + UEscape(0xDC00 + (c - 0x10000) % 1024) + rest)
            == Ok(c, rest)
  {
    hide UEscape, NextChar;
    var q, r := (c - 0x10000) / 1024, (c - 0x10000) % 1024;
    assert q * 1024 + r == c - 0x10000;
    NextPair(0xD800 + q, 0xDC00 + r, rest);
  }

  lemma NextEncodedChar(c: Code, rest: Text)
    requires NotCompleting(c, rest)
    ensures var t := EncodeChar(c) + rest; t[0] != C('"') && NextChar(t) == Ok(c, rest)
  {
    if ShortEscape(c).Some? {
      NextShortEscape(c, rest);
    } else if 32 <= c <= 126 {
      assert ([c] + rest)[1..] == rest;
    } else if c < 0x10000 {
      NextUEscape(c, rest);
    } else {
      NextAstral(c, rest);
    }
  }

  /** An encoded character that starts with a \\u escape starts with that of a low surrogate
      only if it is one. */
  lemma EscapeOfChar(d: Code, more: Text)
    requires StartsUEscape(EncodeChar(d) + more)
    ensures ReadHex4((EncodeChar(d) + more)[2..]).Some?
    ensures IsLow(ReadHex4((EncodeChar(d) + more)[2..]).value) ==> IsLow(d)
  {
    var rest := EncodeChar(d) + more;
    if ShortEscape(d).None? && !(32 <= d <= 126) {
      var n := if d < 0x10000 then d else 0xD800 + (d - 0x10000) / 1024;
      var tail := if d < 0x10000 then more else UEscape(0xDC00 + (d - 0x10000) % 1024) + more;
      assert rest == UEscape(n) + tail;
      UEscapeReads(n, tail);
      hide UEscape, ReadHex4;
    }
  }

  lemma BodyCompletesOnlyByLow(c: Code, s: Text, after: Text)
    requires s == [] || !(IsHigh(c) && IsLow(s[0]))
    ensures NotCompleting(c, EncodeChars(s) + [C('"')] + after)
  {
    hide EncodeChar;
    hide ReadHex4;
    var rest := EncodeChars(s) + [C('"')] + after;
    if s != [] && IsHigh(c) && StartsUEscape(rest) {
      var more := EncodeChars(s[1..]) + [C('"')] + after;
      Regroup4(EncodeChar(s[0]), EncodeChars(s[1..]), [C('"')], after);
      EscapeOfChar(s[0], more);
    }
  }

  lemma SurrogatesEncodeAlone(c: Code)
    requires IsHigh(c) || IsLow(c)
    ensures EncodeChar(c) == UEscape(c)
  {
  }

  lemma BodyStartsWithPair(s: Text, after: Text)
    requires |s| >= 2 && IsHigh(s[0]) && IsLow(s[1])
    ensures EncodeChars(s) + [C('"')] + after
            == UEscape(s[0]) + UEscape(s[1]) + (EncodeChars(s[2..]) + [C('"')] + after)
  {
    assert s[1..][0] == s[1] && s[1..][1..] == s[2..];
    SurrogatesEncodeAlone(s[0]);
    SurrogatesEncodeAlone(s[1]);
    Regroup5(UEscape(s[0]), UEscape(s[1]), EncodeChars(s[2..]), [C('"')], after);
  }

  /** One step of reading a string body. */
  lemma ReadStringStep(r: Text, c: Code, rest: Text, tail: Text, after: Text)
    requires r != [] && r[0] != C('"') && NextChar(r) == Ok(c, rest) && ReadString(rest) == Ok(tail, after)
    ensures ReadString(r) == Ok([c] + tail, after)
  {
  }

  lemma PairReads(n: int, m: int, rest: Text, tail: Text, after: Text)
    requires IsHigh(n) && IsLow(m) && ReadString(rest) == Ok(tail, after)
    ensures ReadString(UEscape(n) + UEscape(m) + rest)
            == Ok([0x10000 + (n - 0xD800) * 1024 + (m - 0xDC00)] + tail, after)
  {
    hide UEscape, NextChar, ReadString;
    NextPair(n, m, rest);
    ReadStringStep(UEscape(n) + UEscape(m) + rest, 0x10000 + (n - 0xD800) * 1024 + (m - 0xDC00), rest, tail, after);
  }

  lemma ReadPairFirst(s: Text, after: Text)
    requires |s| >= 2 && IsHigh(s[0]) && IsLow(s[1])
    requires ReadString(EncodeChars(s[2..]) + [C('"')] + after) == Ok(Merge(s[2..]), after)
    ensures ReadString(EncodeChars(s) + [C('"')] + after) == Ok(Merge(s), after)
  {
    hide NextChar;
    hide UEscape;
    BodyStartsWithPair(s, after);
    PairReads(s[0], s[1], EncodeChars(s[2..]) + [C('"')] + after, Merge(s[2..]), after);
  }

  lemma ReadCharFirst(s: Text, after: Text)
    requires s != [] && !(|s| >= 2 && IsHigh(s[0]) && IsLow(s[1]))
    requires ReadString(EncodeChars(s[1..]) + [C('"')] + after) == Ok(Merge(s[1..]), after)
    ensures ReadString(EncodeChars(s) + [C('"')] + after) == Ok(Merge(s), after)
  {
    hide EncodeChar;
    hide NextChar;
    var rest := EncodeChars(s[1..]) + [C('"')] + after;
    Regroup4(EncodeChar(s[0]), EncodeChars(s[1..]), [C('"')], after);
    BodyCompletesOnlyByLow(s[0], s[1..], after);
    NextEncodedChar(s[0], rest);
    ReadStringStep(EncodeChar(s[0]) + rest, s[0], rest, Merge(s[1..]), after);
  }

  lemma {:induction false} ReadEncodedString(s: Text, after: Text)
    ensures ReadString(EncodeChars(s) + [C('"')] + after) == Ok(Merge(s), after)
    decreases |s|
  {
    if s == [] {
      assert EncodeChars(s) + [C('"')] + after == [C('"')] + after;
      assert ([C('"')] + after)[1..] == after;
    } else if |s| >= 2 && IsHigh(s[0]) && IsLow(s[1]) {
      ReadEncodedString(s[2..], after);
      ReadPairFirst(s, after);
    } else {
      ReadEncodedString(s[1..], after);
      ReadCharFirst(s, after);
    }
  }

  lemma SkipNothing(r: Text)
    requires r == [] || !IsBlank(r[0])
    ensures SkipBlanks(r) == r
  {
  }

  lemma SkipOne(r: Text)
    requires |r| >= 1 && r[0] == C(' ') && (|r| == 1 || !IsBlank(r[1]))
    ensures SkipBlanks(r) == r[1..]
  {
    SkipNothing(r[1..]);
  }

  /** Encodings of plain values start with a quote, a bracket or a brace. */
  predicate Opens(c: Code) { c == C('"') || c == C('[') || c == C('{') }

  lemma EncodingOpens(v: Value)
    requires Plain(v)
    ensures Encode(v) != [] && Opens(Encode(v)[0])
  {
  }

  // One unfolding of each reader, with the pieces named.

  lemma ArrayReads(r: Text, items: seq<Value>, after: Text)
    requires r != [] && Opens(r[0]) && ReadItems(r) == Ok(items, after)
    ensures ReadValue([C('[')] + r) == Ok(Arr(items), after)
  {
    hide ReadItems;
    assert ([C('[')] + r)[1..] == r;
    SkipNothing(r);
  }

  lemma ObjectReads(r: Text, members: seq<Member>, after: Text)
    requires r != [] && r[0] == C('"') && ReadMembers(r) == Ok(members, after)
    ensures ReadValue([C('{')] + r) == Ok(Obj(members), after)
  {
    hide ReadMembers;
    assert ([C('{')] + r)[1..] == r;
    SkipNothing(r);
  }

  lemma EmptyReads(after: Text)
    ensures ReadValue([C('['), C(']')] + after) == Ok(Arr([]), after)
    ensures ReadValue([C('{'), C('}')] + after) == Ok(Obj([]), after)
  {
    var a, o := [C('['), C(']')] + after, [C('{'), C('}')] + after;
    assert a[1..] == [C(']')] + after && o[1..] == [C('}')] + after;
    SkipNothing(a[1..]);
    SkipNothing(o[1..]);
    assert a[1..][1..] == after && o[1..][1..] == after;
  }

  lemma LastItemReads(r: Text, v: Value, after: Text)
    requires ReadValue(r) == Ok(v, [C(']')] + after)
    ensures ReadItems(r) == Ok([v], after)
  {
    SkipNothing([C(']')] + after);
    assert ([C(']')] + after)[1..] == after;
  }

  /** The separator `", "` between items or members. */
  lemma SkipSeparator(sep: Code, more: Text)
    requires !IsBlank(sep) && more != [] && !IsBlank(more[0])
    ensures var rest := [sep, C(' ')] + more;
            SkipBlanks(rest) == rest && rest[0] == sep && SkipBlanks(rest[1..]) == more
  {
    var rest := [sep, C(' ')] + more;
    SkipNothing(rest);
    assert rest[1..] == [C(' ')] + more;
    SkipOne(rest[1..]);
    assert rest[1..][1..] == more;
  }

  lemma NextItemReads(r: Text, v: Value, more: Text, items: seq<Value>, after: Text)
    requires ReadValue(r) == Ok(v, [C(','), C(' ')] + more)
    requires more != [] && Opens(more[0]) && ReadItems(more) == Ok(items, after)
    ensures ReadItems(r) == Ok([v] + items, after)
  {
    SkipSeparator(C(','), more);
  }

  /** A key and its value, ready for what closes or continues the object. */
  lemma MemberReads(key: Text, value: Text, v: Value, rest: Text)
    requires value != [] && Opens(value[0]) && ReadValue(value) == Ok(v, rest) && rest != [] && !IsBlank(rest[0])
    ensures var r := EncodeString(key) + [C(':'), C(' ')] + value;
            && (rest[0] == C('}') ==> ReadMembers(r) == Ok([Member(Merge(key), v)], rest[1..]))
            && (rest[0] == C(',') ==>
                 var more := ReadMembers(SkipBlanks(rest[1..]));
                 more.Ok? ==> ReadMembers(r) == Ok([Member(Merge(key), v)] + more.value, more.rest))
  {
    hide ReadString;
    hide ReadValue;
    hide EncodeChars;
    var r := EncodeString(key) + [C(':'), C(' ')] + value;
    var colon := [C(':'), C(' ')] + value;
    assert r[1..] == EncodeChars(key) + [C('"')] + colon;
    ReadEncodedString(key, colon);
    SkipSeparator(C(':'), value);
    SkipNothing(rest);
  }

  /** Reading undoes writing, whatever follows, up to merged surrogate pairs. */
  lemma {:induction false} ReadEncoded(v: Value, after: Text)
    requires Plain(v)
    ensures ReadValue(Encode(v) + after) == Ok(MergeValue(v), after)
    decreases v, 1
  {
    match v
    case Str(s) =>
      ReadEncodedString(s, after);
      StringReads(s, after);
    case Arr(items) =>
      if items != [] {
        ReadEncodedItems(items, after);
      }
      ArrayOfItemsReads(items, after);
    case Obj(members) =>
      if members != [] {
        ReadEncodedMembers(members, after);
      }
      ObjectOfMembersReads(members, after);
  }

  lemma StringReads(s: Text, after: Text)
    requires ReadString(EncodeChars(s) + [C('"')] + after) == Ok(Merge(s), after)
    ensures ReadValue(EncodeString(s) + after) == Ok(Str(Merge(s)), after)
  {
    Regroup4([C('"')], EncodeChars(s), [C('"')], after);
    assert (EncodeString(s) + after)[1..] == EncodeChars(s) + [C('"')] + after;
  }

  lemma ArrayOfItemsReads(items: seq<Value>, after: Text)
    requires items != [] ==> Plain(items[0])
    requires items != [] ==> ReadItems(EncodeItems(items) + [C(']')] + after) == Ok(MergeItems(items), after)
    ensures ReadValue([C('[')] + EncodeItems(items) + [C(']')] + after) == Ok(Arr(MergeItems(items)), after)
  {
    Regroup4([C('[')], EncodeItems(items), [C(']')], after);
    if items == [] {
      EmptyReads(after);
      assert [C('[')] + EncodeItems(items) + [C(']')] + after == [C('['), C(']')] + after;
    } else {
      ItemsOpen(items, [C(']')] + after);
      Regroup3(EncodeItems(items), [C(']')], after);
      ArrayReads(EncodeItems(items) + [C(']')] + after, MergeItems(items), after);
    }
  }

  lemma ObjectOfMembersReads(members: seq<Member>, after: Text)
    requires members != [] ==>
               ReadMembers(EncodeMembers(members) + [C('}')] + after) == Ok(MergeMembers(members), after)
    ensures ReadValue([C('{')] + EncodeMembers(members) + [C('}')] + after) == Ok(Obj(MergeMembers(members)), after)
  {
    Regroup4([C('{')], EncodeMembers(members), [C('}')], after);
    if members == [] {
      EmptyReads(after);
      assert [C('{')] + EncodeMembers(members) + [C('}')] + after == [C('{'), C('}')] + after;
    } else {
      MembersOpen(members, [C('}')] + after);
      Regroup3(EncodeMembers(members), [C('}')], after);
      ObjectReads(EncodeMembers(members) + [C('}')] + after, MergeMembers(members), after);
    }
  }

  lemma ItemsOpen(items: seq<Value>, after: Text)
    requires items != [] && Plain(items[0])
    ensures EncodeItems(items) != [] && Opens((EncodeItems(items) + after)[0])
  {
    EncodingOpens(items[0]);
    assert (EncodeItems(items) + after)[0] == Encode(items[0])[0];
  }

  lemma MembersOpen(members: seq<Member>, after: Text)
    requires members != []
    ensures EncodeMembers(members) != [] && (EncodeMembers(members) + after)[0] == C('"')
  {
    assert EncodeMember(members[0])[0] == C('"');
  }

  lemma {:induction false} ReadEncodedItems(items: seq<Value>, after: Text)
    requires items != [] && forall i :: 0 <= i < |items| ==> Plain(items[i])
    ensures ReadItems(EncodeItems(items) + [C(']')] + after) == Ok(MergeItems(items), after)
    decreases items, 0
  {
    if |items| == 1 {
      ReadEncoded(items[0], [C(']')] + after);
      Regroup3(Encode(items[0]), [C(']')], after);
      LastItemReads(Encode(items[0]) + ([C(']')] + after), MergeValue(items[0]), after);
      assert MergeItems(items) == [MergeValue(items[0])];
    } else {
      var more := EncodeItems(items[1..]) + [C(']')] + after;
      ReadEncoded(items[0], [C(','), C(' ')] + more);
      ReadEncodedItems(items[1..], after);
      FirstItemReads(items, after);
    }
  }

  lemma FirstItemReads(items: seq<Value>, after: Text)
    requires |items| > 1 && Plain(items[1])
    requires var more := EncodeItems(items[1..]) + [C(']')] + after;
             && ReadValue(Encode(items[0]) + ([C(','), C(' ')] + more))
                     == Ok(MergeValue(items[0]), [C(','), C(' ')] + more)
             && ReadItems(more) == Ok(MergeItems(items[1..]), after)
    ensures ReadItems(EncodeItems(items) + [C(']')] + after) == Ok(MergeItems(items), after)
  {
    var more := EncodeItems(items[1..]) + [C(']')] + after;
    ItemsOpen(items[1..], [C(']')] + after);
    Regroup3(EncodeItems(items[1..]), [C(']')], after);
    NextItemReads(Encode(items[0]) + ([C(','), C(' ')] + more), MergeValue(items[0]), more,
                  MergeItems(items[1..]), after);
    Regroup5(Encode(items[0]), [C(','), C(' ')], EncodeItems(items[1..]), [C(']')], after);
  }

  lemma {:induction false} ReadEncodedMembers(members: seq<Member>, after: Text)
    requires members != [] && forall i :: 0 <= i < |members| ==> Plain(members[i].value)
    ensures ReadMembers(EncodeMembers(members) + [C('}')] + after) == Ok(MergeMembers(members), after)
    decreases members, 0
  {
    var m := members[0];
    if |members| == 1 {
      ReadEncodedMember(m, [C('}')] + after);
      Regroup3(EncodeMember(m), [C('}')], after);
      assert ([C('}')] + after)[1..] == after;
      assert MergeMembers(members) == [MergeMember(m)];
    } else {
      var more := EncodeMembers(members[1..]) + [C('}')] + after;
      ReadEncodedMember(m, [C(','), C(' ')] + more);
      ReadEncodedMembers(members[1..], after);
      MembersOpen(members[1..], [C('}')] + after);
      Regroup3(EncodeMembers(members[1..]), [C('}')], after);
      SkipSeparator(C(','), more);
      Regroup5(EncodeMember(m), [C(','), C(' ')], EncodeMembers(members[1..]), [C('}')], after);
    }
  }

  lemma {:induction false} ReadEncodedMember(m: Member, rest: Text)
    requires Plain(m.value) && rest != [] && !IsBlank(rest[0])
    ensures var r := EncodeMember(m) + rest;
            && (rest[0] == C('}') ==> ReadMembers(r) == Ok([MergeMember(m)], rest[1..]))
            && (rest[0] == C(',') ==>
                 var more := ReadMembers(SkipBlanks(rest[1..]));
                 more.Ok? ==> ReadMembers(r) == Ok([MergeMember(m)] + more.value, more.rest))
    decreases m, 2
  {
    var value := Encode(m.value) + rest;
    ReadEncoded(m.value, rest);
    EncodingOpens(m.value);
    assert value[0] == Encode(m.value)[0];
    MemberReads(m.key, value, MergeValue(m.value), rest);
    assert EncodeMember(m) + rest == EncodeString(m.key) + [C(':'), C(' ')] + value;
  }

  lemma LoadsEncoded(v: Value)
    requires Plain(v)
    ensures Loads(Encode(v)) == Some(MergeValue(v))
  {
    EncodingOpens(v);
    SkipNothing(Encode(v));
    ReadEncoded(v, []);
    assert Encode(v) + [] == Encode(v);
  }

  // ---------------------------------------------------------------- a strict prefix is no text

  /** What may directly follow a value inside an array or object. */
  predicate Delimits(c: Code) { IsBlank(c) || c == C(',') || c == C(']') || c == C('}') }

  lemma {:induction false} SkipStable(r: Text, t: Text)
    requires SkipBlanks(r) != []
    ensures SkipBlanks(r + t) == SkipBlanks(r) + t
  {
    if IsBlank(r[0]) {
      SkipStable(r[1..], t);
      assert (r + t)[1..] == r[1..] + t;
    }
  }

  lemma {:induction false} SkipKeepsFirst(r: Text)
    requires SkipBlanks(r) != []
    ensures r != [] && (IsBlank(r[0]) || r == SkipBlanks(r))
  {
  }

  lemma Hex4Stable(r: Text, t: Text)
    requires |r| >= 4
    ensures ReadHex4(r + t) == ReadHex4(r)
  {
  }

  lemma NextCharStable(r: Text, t: Text)
    requires r != [] && r[0] != C('"') && NextChar(r).Ok?
    requires NextChar(r).rest != [] && (NextChar(r).rest[0] == C('\\') ==> |NextChar(r).rest| >= 2)
    ensures NextChar(r + t) == Ok(NextChar(r).value, NextChar(r).rest + t)
  {
    hide ReadHex4;
    var rt := r + t;
    if r[0] != C('\\') {
      assert rt[1..] == r[1..] + t;
    } else if r[1] != C('u') {
      assert rt[2..] == r[2..] + t;
    } else {
      assert rt[2..] == r[2..] + t;
      Hex4Stable(r[2..], t);
      var rest := r[6..];
      assert rt[6..] == rest + t;
      if StartsUEscape(rest) && |rest| >= 6 {
        assert (rest + t)[2..] == rest[2..] + t;
        Hex4Stable(rest[2..], t);
        assert (rest + t)[6..] == rest[6..] + t;
      }
    }
  }

  lemma ReadStringNeeds(r: Text)
    requires ReadString(r).Ok?
    ensures r != [] && (r[0] == C('\\') ==> |r| >= 2)
  {
  }

  /** Once a string is closed, nothing after it changes it; likewise below. */
  lemma {:induction false} ReadStringStable(r: Text, t: Text)
    requires ReadString(r).Ok?
    ensures ReadString(r + t) == Ok(ReadString(r).value, ReadString(r).rest + t)
    decreases |r|
  {
    if r[0] == C('"') {
      assert (r + t)[1..] == r[1..] + t;
    } else {
      var c := NextChar(r);
      ReadStringNeeds(c.rest);
      NextCharStable(r, t);
      ReadStringStable(c.rest, t);
      ReadStringStep(r + t, c.value, c.rest + t, ReadString(c.rest).value, ReadString(c.rest).rest + t);
    }
  }

  lemma {:induction false} DigitsStable(r: Text, t: Text)
    requires Digits(r) < |r|
    ensures Digits(r + t) == Digits(r)
  {
    if IsDigit(r[0]) {
      DigitsStable(r[1..], t);
      assert (r + t)[1..] == r[1..] + t;
    }
  }

  lemma IntegerStable(r: Text, t: Text)
    requires 0 < IntegerLength(r) < |r|
    ensures IntegerLength(r + t) == IntegerLength(r)
  {
    var u := if r[0] == C('-') then r[1..] else r;
    var ut := if r[0] == C('-') then (r + t)[1..] else r + t;
    assert ut == u + t;
    if u[0] != C('0') {
      DigitsStable(u, t);
    }
  }

  lemma FractionStable(r: Text, t: Text)
    requires FractionLength(r) < |r| && (FractionLength(r) == 0 ==> r[0] != C('.'))
    ensures FractionLength(r + t) == FractionLength(r)
  {
    assert (r + t)[1..] == r[1..] + t;
    if FractionLength(r) > 0 {
      DigitsStable(r[1..], t);
    }
  }

  lemma ExponentStable(r: Text, t: Text)
    requires ExponentLength(r) < |r| && (ExponentLength(r) == 0 ==> r[0] != C('e') && r[0] != C('E'))
    ensures ExponentLength(r + t) == ExponentLength(r)
  {
    assert (r + t)[1..] == r[1..] + t;
    if ExponentLength(r) > 0 {
      if r[1] == C('-') || r[1] == C('+') {
        assert (r + t)[2..] == r[2..] + t;
        DigitsStable(r[2..], t);
      } else {
        DigitsStable(r[1..], t);
      }
    }
  }

  /** A number that stops at a delimiter stops in none of its optional parts. */
  lemma NumberStops(r: Text)
    requires 0 < NumberLength(r) < |r| && Delimits(r[NumberLength(r)])
    ensures var i := IntegerLength(r);
            var f := FractionLength(r[i..]);
            && 0 < i && i + f < |r|
            && (f == 0 ==> r[i] != C('.'))
            && i + f + ExponentLength(r[i + f..]) == NumberLength(r)
            && (ExponentLength(r[i + f..]) == 0 ==> r[i + f] != C('e') && r[i + f] != C('E'))
  {
    hide IntegerLength;
  }

  lemma NumberStable(r: Text, t: Text)
    requires 0 < NumberLength(r) < |r| && Delimits(r[NumberLength(r)])
    ensures NumberLength(r + t) == NumberLength(r)
  {
    hide IntegerLength;
    hide FractionLength;
    hide ExponentLength;
    NumberStops(r);
    var i := IntegerLength(r);
    var f := FractionLength(r[i..]);
    IntegerStable(r, t);
    assert (r + t)[i..] == r[i..] + t;
    FractionStable(r[i..], t);
    assert (r + t)[i + f..] == r[i + f..] + t;
    ExponentStable(r[i + f..], t);
  }

  lemma SpellsStable(r: Text, t: Text, word: string)
    requires Spells(r, word)
    ensures Spells(r + t, word) && (r + t)[|word|..] == r[|word|..] + t && (r + t)[..|word|] == r[..|word|]
  {
  }

  /** A literal is known by its first letter. */
  lemma LiteralByFirst(r: Text)
    requires r != []
    ensures LiteralWord(r) != "" ==> r[0] == C(LiteralWord(r)[0])
    ensures r[0] == C('n') && Spells(r, "null") ==> LiteralWord(r) == "null"
    ensures r[0] == C('t') && Spells(r, "true") ==> LiteralWord(r) == "true"
    ensures r[0] == C('f') && Spells(r, "false") ==> LiteralWord(r) == "false"
    ensures r[0] == C('N') && Spells(r, "NaN") ==> LiteralWord(r) == "NaN"
    ensures r[0] == C('I') && Spells(r, "Infinity") ==> LiteralWord(r) == "Infinity"
    ensures r[0] == C('-') && Spells(r, "-Infinity") ==> LiteralWord(r) == "-Infinity"
  {
    FirstOf(r, "null");
    FirstOf(r, "true");
    FirstOf(r, "false");
    FirstOf(r, "NaN");
    FirstOf(r, "Infinity");
    FirstOf(r, "-Infinity");
    hide Spells;
  }

  lemma FirstOf(r: Text, word: string)
    requires word != ""
    ensures Spells(r, word) ==> r != [] && r[0] == C(word[0])
  {
  }

  lemma LiteralStarts(r: Text)
    requires LiteralWord(r) != ""
    ensures |r| >= 2 && !IsDigit(r[0]) && (r[0] == C('-') ==> !IsDigit(r[1]))
  {
    LiteralByFirst(r);
    var word := LiteralWord(r);
    assert r[1] == C(word[1]);
  }

  lemma LiteralWordStable(r: Text, t: Text)
    requires LiteralWord(r) != ""
    ensures LiteralWord(r + t) == LiteralWord(r)
  {
    LiteralStarts(r);
    LiteralByFirst(r);
    LiteralByFirst(r + t);
    SpellsStable(r, t, LiteralWord(r));
    hide Spells;
    assert (r + t)[0] == r[0];
  }

  lemma NoNumberStable(r: Text, t: Text)
    requires |r| >= 2 && !IsDigit(r[0]) && (r[0] == C('-') ==> !IsDigit(r[1]))
    ensures NumberLength(r + t) == 0 && NumberLength(r) == 0
  {
    assert (r + t)[1..] == r[1..] + t;
    assert Digits(r[1..] + t) == 0 || r[0] != C('-');
  }

  lemma LiteralStable(r: Text, t: Text)
    requires NumberLength(r) == 0 && ReadLiteral(r).Ok?
    ensures NumberLength(r + t) == 0 && ReadLiteral(r + t) == Ok(ReadLiteral(r).value, ReadLiteral(r).rest + t)
  {
    LiteralStarts(r);
    NoNumberStable(r, t);
    LiteralWordStable(r, t);
    SpellsStable(r, t, LiteralWord(r));
    hide NumberLength;
    hide LiteralWord;
    hide Spells;
  }

  lemma ScalarStable(r: Text, t: Text)
    requires ReadScalar(r).Ok? && ReadScalar(r).rest != [] && Delimits(ReadScalar(r).rest[0])
    ensures ReadScalar(r + t) == Ok(ReadScalar(r).value, ReadScalar(r).rest + t)
  {
    hide NumberLength;
    hide ReadLiteral;
    var n := NumberLength(r);
    if n > 0 {
      NumberStable(r, t);
      assert (r + t)[..n] == r[..n] && (r + t)[n..] == r[n..] + t;
    } else {
      LiteralStable(r, t);
    }
  }

  predicate Ends(r: Text, rest: Text)
    requires r != []
  {
    Opens(r[0]) || (rest != [] && Delimits(rest[0]))
  }

  /** A value that is closed, or followed by a delimiter, is read the same however the text
      goes on. */
  lemma {:induction false} ReadValueStable(r: Text, t: Text)
    requires ReadValue(r).Ok? && Ends(r, ReadValue(r).rest)
    ensures ReadValue(r + t) == Ok(ReadValue(r).value, ReadValue(r).rest + t)
    decreases |r|, 0
  {
    assert (r + t)[1..] == r[1..] + t;
    if r[0] == C('"') {
      ReadStringStable(r[1..], t);
    } else if r[0] == C('[') {
      ArrayStable(r, t);
    } else if r[0] == C('{') {
      ObjectStable(r, t);
    } else {
      ScalarStable(r, t);
    }
  }

  lemma {:induction false} ArrayStable(r: Text, t: Text)
    requires r != [] && r[0] == C('[') && ReadValue(r).Ok?
    ensures ReadValue(r + t) == Ok(ReadValue(r).value, ReadValue(r).rest + t)
    decreases |r| - 1, 2
  {
    assert (r + t)[1..] == r[1..] + t;
    var next := SkipBlanks(r[1..]);
    assert next != [] by { assert next == [] ==> ReadItems(next).Fail?; }
    SkipStable(r[1..], t);
    if next[0] == C(']') {
      assert (next + t)[1..] == next[1..] + t;
    } else {
      ReadItemsStable(next, t);
    }
  }

  lemma {:induction false} ObjectStable(r: Text, t: Text)
    requires r != [] && r[0] == C('{') && ReadValue(r).Ok?
    ensures ReadValue(r + t) == Ok(ReadValue(r).value, ReadValue(r).rest + t)
    decreases |r| - 1, 2
  {
    assert (r + t)[1..] == r[1..] + t;
    var next := SkipBlanks(r[1..]);
    SkipStable(r[1..], t);
    if next[0] == C('}') {
      assert (next + t)[1..] == next[1..] + t;
    } else {
      ReadMembersStable(next, t);
    }
  }

  lemma {:induction false} ReadItemsStable(r: Text, t: Text)
    requires ReadItems(r).Ok?
    ensures ReadItems(r + t) == Ok(ReadItems(r).value, ReadItems(r).rest + t)
    decreases |r|, 1
  {
    hide ReadValue;
    hide SkipBlanks;
    var v := ReadValue(r);
    var next := SkipBlanks(v.rest);
    SkipKeepsFirst(v.rest);
    ReadValueStable(r, t);
    SkipStable(v.rest, t);
    assert (next + t)[1..] == next[1..] + t;
    if next[0] == C(',') {
      var following := SkipBlanks(next[1..]);
      assert following != [] by { assert following == [] ==> ReadItems(following).Fail?; }
      SkipStable(next[1..], t);
      ReadItemsStable(following, t);
    }
  }

  lemma {:induction false} ReadMembersStable(r: Text, t: Text)
    requires ReadMembers(r).Ok?
    ensures ReadMembers(r + t) == Ok(ReadMembers(r).value, ReadMembers(r).rest + t)
    decreases |r|, 1
  {
    hide ReadString;
    hide ReadValue;
    hide SkipBlanks;
    var key := ReadString(r[1..]);
    ReadStringStable(r[1..], t);
    var colon := SkipBlanks(key.rest);
    SkipStable(key.rest, t);
    var start := SkipBlanks(colon[1..]);
    ReadsSomething(start);
    SkipStable(colon[1..], t);
    var v := ReadValue(start);
    var next := SkipBlanks(v.rest);
    SkipKeepsFirst(v.rest);
    ReadValueStable(start, t);
    SkipStable(v.rest, t);
    assert (r + t)[1..] == r[1..] + t && (colon + t)[1..] == colon[1..] + t && (next + t)[1..] == next[1..] + t;
    if next[0] == C(',') {
      var following := SkipBlanks(next[1..]);
      SkipStable(next[1..], t);
      ReadMembersStable(following, t);
    }
  }

  lemma ReadsSomething(r: Text)
    requires ReadValue(r).Ok?
    ensures r != []
  {
  }

  /** No strict prefix of a complete object, array or string text is a JSON text. */
  lemma StrictPrefixIsNoText(text: Text, k: nat)
    requires text != [] && Opens(text[0]) && ReadValue(text).Ok? && ReadValue(text).rest == []
    requires k < |text|
    ensures Loads(text[..k]) == None
  {
    var p, t := text[..k], text[k..];
    assert p + t == text;
    if Loads(p).Some? {
      assert SkipBlanks(p) == p by { if p != [] { SkipNothing(p); } }
      ReadValueStable(p, t);
    }
  }
}
