/** The family scores of `scripts/generate_prog_evidence_payloads.py`, in real arithmetic. */
module EvidenceScores {
  import opened Strings

  // ---------------------------------------------------------------- quantiles

  ghost predicate Sorted(s: seq<real>) { forall i, j :: 0 <= i < j < |s| ==> s[i] <= s[j] }

  function Insert(s: seq<real>, x: real): (r: seq<real>)
    ensures multiset(r) == multiset(s) + multiset{x}
  {
    if s == [] then [x]
    else if x <= s[0] then [x] + s
    else
      assert s == [s[0]] + s[1..];
      [s[0]] + Insert(s[1..], x)
  }

  lemma SameMembers<T>(a: seq<T>, b: seq<T>)
    requires multiset(a) == multiset(b)
    ensures forall v :: v in a <==> v in b
    ensures |a| == |b|
  {
    assert |a| == |multiset(a)| && |b| == |multiset(b)|;
    forall v ensures v in a <==> v in b {
      assert v in a <==> v in multiset(a);
      assert v in b <==> v in multiset(b);
    }
  }

  lemma SortedCons(x: real, rest: seq<real>)
    requires Sorted(rest) && forall v :: v in rest ==> x <= v
    ensures Sorted([x] + rest)
  {
    var s := [x] + rest;
    forall i, j | 0 <= i < j < |s| ensures s[i] <= s[j] {
      assert s[j] == rest[j - 1];
      assert rest[j - 1] in rest;
    }
  }

  lemma SortedTail(s: seq<real>)
    requires Sorted(s) && s != []
    ensures Sorted(s[1..]) && forall v :: v in s[1..] ==> s[0] <= v
  {
    assert forall i :: 0 <= i < |s[1..]| ==> s[1..][i] == s[i + 1];
  }

  lemma InsertedMembers(s: seq<real>, x: real)
    ensures forall v :: v in Insert(s, x) <==> v in s || v == x
  {
    hide Insert;
    assert multiset(Insert(s, x)) == multiset(s + [x]);
    SameMembers(Insert(s, x), s + [x]);
  }

  lemma {:induction false} InsertSorted(s: seq<real>, x: real)
    requires Sorted(s)
    ensures Sorted(Insert(s, x))
  {
    hide Sorted;
    if s == [] {
      NothingIsSorted();
      SortedCons(x, []);
      assert [x] + [] == [x];
    } else {
      SortedTail(s);
      if x <= s[0] {
        assert s == [s[0]] + s[1..];
        SortedCons(x, s);
      } else {
        InsertSorted(s[1..], x);
        InsertedMembers(s[1..], x);
        SortedCons(s[0], Insert(s[1..], x));
      }
    }
  }

  lemma NothingIsSorted()
    ensures Sorted([])
  {
  }

  /** `sorted(values)`. */
  function Ordered(values: seq<real>): (r: seq<real>)
    ensures multiset(r) == multiset(values) && |r| == |values|
  {
    if values == [] then []
    else
      var r := Insert(Ordered(values[1..]), values[0]);
      assert values == [values[0]] + values[1..];
      SameMembers(r, values);
      r
  }

  lemma {:induction false} OrderedIsSorted(values: seq<real>)
    ensures Sorted(Ordered(values))
  {
    if values != [] {
      OrderedIsSorted(values[1..]);
      InsertSorted(Ordered(values[1..]), values[0]);
    }
  }

  function Min(a: real, b: real): real { if a <= b then a else b }

  function Max(a: real, b: real): real { if a <= b then b else a }

  function Clamp(value: real, lower: real, upper: real): real { Max(lower, Min(upper, value)) }

  function Between(a: real, b: real, frac: real): real { a * (1.0 - frac) + b * frac }

  /** The interpolation point of quantile `q` among `n` ordered values. */
  function Index(n: nat, q: real): (idx: real)
    requires n >= 1
    ensures 0.0 <= idx <= (n - 1) as real
  {
    var quant := Clamp(q, 0.0, 1.0);
    Scaled((n - 1) as real, quant);
    (n - 1) as real * quant
  }

  lemma Scaled(n: real, q: real)
    requires n >= 0.0 && 0.0 <= q <= 1.0
    ensures 0.0 <= n * q <= n
  {
  }

  function AtIndex(ordered: seq<real>, idx: real): real
    requires ordered != [] && 0.0 <= idx <= (|ordered| - 1) as real
  {
    var lo := idx.Floor;
    var hi := if lo + 1 <= |ordered| - 1 then lo + 1 else |ordered| - 1;
    Between(ordered[lo], ordered[hi], idx - lo as real)
  }

  /** `_quantile`. */
  function Quantile(values: seq<real>, q: real): Option<real> {
    if values == [] then None
    else
      var ordered := Ordered(values);
      if |ordered| == 1 then Some(ordered[0]) else Some(AtIndex(ordered, Index(|ordered|, q)))
  }

  lemma Product(x: real, y: real)
    requires x >= 0.0 && y >= 0.0
    ensures x * y >= 0.0
  {
  }

  lemma BetweenBounds(a: real, b: real, f: real, g: real)
    requires a <= b && 0.0 <= f <= g <= 1.0
    ensures a <= Between(a, b, f) <= Between(a, b, g) <= b
  {
    assert Between(a, b, f) == a + (b - a) * f;
    assert Between(a, b, g) == a + (b - a) * g;
    assert Between(a, b, g) == b - (b - a) * (1.0 - g);
    Product(b - a, f);
    Product(b - a, 1.0 - g);
    Product(b - a, g - f);
    assert (b - a) * (g - f) == (b - a) * g - (b - a) * f;
  }

  /** A value read between two neighbours lies between them. */
  lemma AtIndexBounds(ordered: seq<real>, idx: real)
    requires Sorted(ordered) && ordered != [] && 0.0 <= idx <= (|ordered| - 1) as real
    ensures ordered[idx.Floor] <= AtIndex(ordered, idx)
    ensures AtIndex(ordered, idx) <= ordered[if idx.Floor + 1 <= |ordered| - 1 then idx.Floor + 1 else |ordered| - 1]
  {
    hide Between;
    var lo := idx.Floor;
    var hi := if lo + 1 <= |ordered| - 1 then lo + 1 else |ordered| - 1;
    BetweenBounds(ordered[lo], ordered[hi], idx - lo as real, idx - lo as real);
  }

  lemma AtIndexMonotone(ordered: seq<real>, i: real, j: real)
    requires Sorted(ordered) && ordered != [] && 0.0 <= i <= j <= (|ordered| - 1) as real
    ensures AtIndex(ordered, i) <= AtIndex(ordered, j)
  {
    hide Between;
    var lo, next := i.Floor, j.Floor;
    if lo == next {
      var hi := if lo + 1 <= |ordered| - 1 then lo + 1 else |ordered| - 1;
      BetweenBounds(ordered[lo], ordered[hi], i - lo as real, j - lo as real);
    } else {
      AtIndexBounds(ordered, i);
      AtIndexBounds(ordered, j);
      assert ordered[lo + 1] <= ordered[next];
    }
  }

  lemma IndexMonotone(n: nat, p: real, q: real)
    requires n >= 1 && p <= q
    ensures Index(n, p) <= Index(n, q)
  {
    var a, b := Clamp(p, 0.0, 1.0), Clamp(q, 0.0, 1.0);
    Product((n - 1) as real, b - a);
    assert (n - 1) as real * (b - a) == (n - 1) as real * b - (n - 1) as real * a;
  }

  /** A larger quantile is never a smaller value. */
  lemma QuantileMonotone(values: seq<real>, p: real, q: real)
    requires values != [] && p <= q
    ensures Quantile(values, p).value <= Quantile(values, q).value
  {
    hide Index, AtIndex, Ordered;
    var ordered := Ordered(values);
    OrderedIsSorted(values);
    IndexMonotone(|ordered|, p, q);
    if |ordered| > 1 { AtIndexMonotone(ordered, Index(|ordered|, p), Index(|ordered|, q)); }
  }

  ghost predicate IsLeast(x: real, values: seq<real>) { x in values && forall v :: v in values ==> x <= v }

  ghost predicate IsGreatest(x: real, values: seq<real>) { x in values && forall v :: v in values ==> v <= x }

  lemma EndsOfOrdered(values: seq<real>)
    requires values != []
    ensures IsLeast(Ordered(values)[0], values) && IsGreatest(Ordered(values)[|values| - 1], values)
  {
    hide Ordered;
    var ordered := Ordered(values);
    OrderedIsSorted(values);
    SameMembers(ordered, values);
    assert ordered[0] in ordered && ordered[|ordered| - 1] in ordered;
  }

  lemma IndexEnds(n: nat, q: real)
    requires n >= 1
    ensures q <= 0.0 ==> Index(n, q) == 0.0
    ensures q >= 1.0 ==> Index(n, q) == (n - 1) as real
  {
  }

  lemma FirstIndex(ordered: seq<real>)
    requires ordered != []
    ensures AtIndex(ordered, 0.0) == ordered[0]
  {
  }

  lemma LastIndex(ordered: seq<real>)
    requires ordered != []
    ensures AtIndex(ordered, (|ordered| - 1) as real) == ordered[|ordered| - 1]
  {
  }

  /** Every quantile lies between the least and the greatest value; q = 0 and below give the least,
      q = 1 and above the greatest. */
  lemma QuantileRange(values: seq<real>, q: real)
    requires values != []
    ensures forall v :: IsLeast(v, values) ==> v <= Quantile(values, q).value
    ensures forall v :: IsGreatest(v, values) ==> Quantile(values, q).value <= v
    ensures q <= 0.0 ==> IsLeast(Quantile(values, q).value, values)
    ensures q >= 1.0 ==> IsGreatest(Quantile(values, q).value, values)
  {
    hide Ordered, AtIndex;
    var ordered := Ordered(values);
    EndsOfOrdered(values);
    OrderedIsSorted(values);
    if |ordered| > 1 {
      var idx := Index(|ordered|, q);
      AtIndexBounds(ordered, idx);
      IndexEnds(|ordered|, q);
      if q <= 0.0 { FirstIndex(ordered); }
      if q >= 1.0 { LastIndex(ordered); }
    }
  }

  lemma {:induction false} SortedOnce(a: seq<real>, b: seq<real>)
    requires Sorted(a) && Sorted(b) && multiset(a) == multiset(b)
    ensures a == b
  {
    hide Sorted;
    SameMembers(a, b);
    if a != [] {
      SameLeast(a, b);
      SortedTail(a);
      SortedTail(b);
      TailMultiset(a);
      TailMultiset(b);
      SortedOnce(a[1..], b[1..]);
      assert a == [a[0]] + a[1..] && b == [b[0]] + b[1..];
    }
  }

  lemma TailMultiset<T>(a: seq<T>)
    requires a != []
    ensures multiset(a[1..]) == multiset(a) - multiset{a[0]}
  {
    assert a == [a[0]] + a[1..];
  }

  lemma SameLeast(a: seq<real>, b: seq<real>)
    requires a != [] && b != [] && Sorted(a) && Sorted(b) && forall v :: v in a <==> v in b
    ensures a[0] == b[0]
  {
    assert a[0] in a && b[0] in b;
  }

  /** The order of the values does not matter. */
  lemma QuantilePermuted(values: seq<real>, other: seq<real>, q: real)
    requires multiset(values) == multiset(other)
    ensures Quantile(values, q) == Quantile(other, q)
  {
    hide Ordered, AtIndex, Index;
    OrderedIsSorted(values);
    OrderedIsSorted(other);
    SortedOnce(Ordered(values), Ordered(other));
    SameMembers(values, other);
  }

  lemma QuotientIsPart(x: real, d: real)
    requires 0.0 <= x <= d && d > 0.0
    ensures 0.0 <= x / d <= 1.0 && d * (x / d) == x
  {
  }

  lemma FloorOf(k: nat, f: real)
    requires 0.0 <= f < 1.0
    ensures (k as real + f).Floor == k
  {
  }

  /** Where the quantiles lie: of `n` values in order, the one at (k + f) / (n - 1) lies the part `f` of the
      way from the value at `k` to the next. */
  lemma QuantileBetweenNeighbours(values: seq<real>, ordered: seq<real>, k: nat, f: real)
    requires Sorted(ordered) && multiset(ordered) == multiset(values) && |values| >= 2
    requires k < |ordered| && 0.0 <= f < 1.0 && (k + 1 == |ordered| ==> f == 0.0)
    ensures var q := Quantile(values, (k as real + f) / (|values| - 1) as real);
            q == Some(if k + 1 == |ordered| then ordered[k] else ordered[k] + f * (ordered[k + 1] - ordered[k]))
  {
    OrderedIsSorted(values);
    SortedOnce(Ordered(values), ordered);
    hide Ordered, Sorted;
    var n := |values|;
    var x := k as real + f;
    assert |ordered| == n;
    QuotientIsPart(x, (n - 1) as real);
    FloorOf(k, f);
    IndexOfPart(n, x);
    Interpolated(ordered, k, f);
  }

  lemma IndexOfPart(n: nat, x: real)
    requires n >= 2 && 0.0 <= x <= (n - 1) as real
    ensures Index(n, x / (n - 1) as real) == x
  {
    QuotientIsPart(x, (n - 1) as real);
  }

  lemma Interpolated(ordered: seq<real>, k: nat, f: real)
    requires k < |ordered| && 0.0 <= f < 1.0 && (k + 1 == |ordered| ==> f == 0.0)
    ensures AtIndex(ordered, k as real + f)
            == if k + 1 == |ordered| then ordered[k] else ordered[k] + f * (ordered[k + 1] - ordered[k])
  {
    FloorOf(k, f);
    if k + 1 < |ordered| {
      var a, b := ordered[k], ordered[k + 1];
      assert a * (1.0 - f) + b * f == a + f * (b - a);
    }
  }

  // ---------------------------------------------------------------- means and deviations

  function SumOf(values: seq<real>, f: real -> real): real {
    if values == [] then 0.0 else f(values[0]) + SumOf(values[1..], f)
  }

  function Itself(): real -> real { x => x }

  function SquareAround(mu: real): real -> real { x => (x - mu) * (x - mu) }

  /** `_mean`. */
  function Mean(values: seq<real>): Option<real> {
    if values == [] then None else Some(SumOf(values, Itself()) / |values| as real)
  }

  function MeanOrZero(values: seq<real>): real { if values == [] then 0.0 else Mean(values).value }

  /** `_stdev`, over whatever square root is used. */
  function Stdev(values: seq<real>, sqrt: real -> real): real {
    if |values| <= 1 then 0.0
    else sqrt(Max(0.0, SumOf(values, SquareAround(MeanOrZero(values))) / |values| as real))
  }

  lemma {:induction false} SumOfConcat(a: seq<real>, b: seq<real>, f: real -> real)
    ensures SumOf(a + b, f) == SumOf(a, f) + SumOf(b, f)
  {
    if a == [] {
      assert a + b == b;
    } else {
      assert (a + b)[1..] == a[1..] + b;
      SumOfConcat(a[1..], b, f);
    }
  }

  lemma {:induction false} SumPermuted(values: seq<real>, other: seq<real>, f: real -> real)
    requires multiset(values) == multiset(other)
    ensures SumOf(values, f) == SumOf(other, f)
    decreases |values|
  {
    SameMembers(values, other);
    if values != [] {
      var i := TakeOut(values, other);
      SumPermuted(values[1..], other[..i] + other[i + 1..], f);
      SumOfConcat(other[..i], other[i + 1..], f);
      SumOfConcat(other[..i], [values[0]] + other[i + 1..], f);
      assert other == other[..i] + ([values[0]] + other[i + 1..]);
    }
  }

  /** The mean of one value is that value, and the mean of two groups weighs each by its size. */
  lemma MeanWeighs(a: seq<real>, b: seq<real>, x: real)
    requires a != [] && b != []
    ensures Mean([x]) == Some(x)
    ensures |a + b| as real * Mean(a + b).value == |a| as real * Mean(a).value + |b| as real * Mean(b).value
  {
    assert SumOf([x], Itself()) == x;
    SumOfConcat(a, b, Itself());
    QuotientTimes(SumOf(a, Itself()), |a| as real);
    QuotientTimes(SumOf(b, Itself()), |b| as real);
    QuotientTimes(SumOf(a + b, Itself()), |a + b| as real);
  }

  lemma QuotientTimes(x: real, d: real)
    requires d > 0.0
    ensures d * (x / d) == x
  {
  }

  lemma {:induction false} SumOfEqual(values: seq<real>, x: real, f: real -> real)
    requires forall v :: v in values ==> v == x
    ensures SumOf(values, f) == |values| as real * f(x)
  {
    if values != [] {
      assert values[0] in values && forall v :: v in values[1..] ==> v in values;
      SumOfEqual(values[1..], x, f);
      OneMoreTimes(|values[1..]|, f(x));
      assert values[0] == x;
      assert SumOf(values, f) == f(x) + SumOf(values[1..], f);
    }
  }

  lemma OneMoreTimes(n: nat, x: real)
    ensures (n + 1) as real * x == n as real * x + x
  {
    assert (n + 1) as real == n as real + 1.0;
    Distribute(n as real, 1.0, x);
  }

  lemma MeanOfEqual(values: seq<real>, x: real)
    requires values != [] && forall v :: v in values ==> v == x
    ensures Mean(values) == Some(x)
  {
    SumOfEqual(values, x, Itself());
    assert Itself()(x) == x;
    var n := |values| as real;
    assert SumOf(values, Itself()) == n * x;
    TimesQuotient(x, n);
    assert Mean(values) == Some(SumOf(values, Itself()) / n);
  }

  lemma TimesQuotient(x: real, d: real)
    requires d > 0.0
    ensures (d * x) / d == x
  {
    QuotientTimes(d * x, d);
    assert d * ((d * x) / d) == d * x;
    CancelFactor(d, (d * x) / d, x);
  }

  lemma CancelFactor(d: real, a: real, b: real)
    requires d > 0.0 && d * a == d * b
    ensures a == b
  {
    if a > b { Positive(a - b, d); }
    if b > a { Positive(b - a, d); }
  }

  /** The deviation is that of the population: of two values, half their distance. */
  lemma StdevOfTwo(x: real, y: real, half: real, square: real, sqrt: real -> real)
    requires half == (x - y) / 2.0 && square == half * half
    ensures Stdev([x, y], sqrt) == sqrt(square)
  {
    var mu := (x + y) / 2.0;
    var values := [x, y];
    SumOfTwo(x, y, Itself());
    SumOfTwo(x, y, SquareAround(mu));
    assert Itself()(x) == x && Itself()(y) == y;
    assert MeanOrZero(values) == mu;
    assert x - mu == half && y - mu == -half;
    SquareOfNegative(half);
    assert SquareAround(mu)(x) == half * half && SquareAround(mu)(y) == half * half;
    SquareIsPositive(half);
    var variance := SumOf(values, SquareAround(MeanOrZero(values))) / 2.0;
    assert variance == half * half;
    assert |values| as real == 2.0;
    SameRoot(Max(0.0, variance), square, sqrt);
    assert Stdev(values, sqrt) == sqrt(Max(0.0, variance));
  }

  lemma SameRoot(a: real, b: real, sqrt: real -> real)
    requires a == b
    ensures sqrt(a) == sqrt(b)
  {
  }

  lemma SumOfTwo(x: real, y: real, f: real -> real)
    ensures SumOf([x, y], f) == f(x) + f(y)
  {
    assert [x, y][1..] == [y] && [y][1..] == [];
    assert SumOf([y], f) == f([y][0]) + SumOf([], f);
    assert SumOf([x, y], f) == f([x, y][0]) + SumOf([y], f);
  }

  lemma SquareOfNegative(x: real)
    ensures (-x) * (-x) == x * x
  {
  }

  lemma SquareIsPositive(x: real)
    ensures x * x >= 0.0
  {
  }

  /** Where the head of one sequence stands in a permutation of it. */
  lemma TakeOut<T>(values: seq<T>, other: seq<T>) returns (i: nat)
    requires values != [] && multiset(values) == multiset(other)
    ensures i < |other| && other[i] == values[0] && multiset(values[1..]) == multiset(other[..i] + other[i + 1..])
  {
    assert values[0] in multiset(other);
    i :| i < |other| && other[i] == values[0];
    assert values == [values[0]] + values[1..];
    assert other == other[..i] + ([other[i]] + other[i + 1..]);
    assert multiset(other) == multiset(other[..i]) + multiset{other[i]} + multiset(other[i + 1..]);
    assert multiset(values[1..]) == multiset(values) - multiset{values[0]};
  }

  // ---------------------------------------------------------------- the six scores

  /** A result row as its readers see it: whether it succeeded (if it says), its quality score and
      elapsed seconds (if numeric), and whether it carries evidence and token telemetry. */
  datatype Row = Row(success: Option<bool>, quality: Option<real>, elapsed: Option<real>, evidence: bool, tokens: bool)

  function Flag(b: bool): real { if b then 1.0 else 0.0 }

  function SuccessOf(row: Row): Option<real> { if row.success.None? then None else Some(Flag(row.success.value)) }

  function QualityOf(row: Row): Option<real> { row.quality }

  function ElapsedOf(row: Row): Option<real> { row.elapsed }

  function EvidenceOf(row: Row): Option<real> { Some(Flag(row.evidence)) }

  function TokensOf(row: Row): Option<real> { Some(Flag(row.tokens)) }

  /** The values the rows have for one field, in row order. */
  function Collect(rows: seq<Row>, f: Row -> Option<real>): seq<real> {
    if rows == [] then [] else AsSeq(f(rows[0])) + Collect(rows[1..], f)
  }

  function AsSeq(value: Option<real>): seq<real> { if value.Some? then [value.value] else [] }

  datatype Scores = Scores(evaluation: real, safety: real, taskQuality: real, reliability: real, release: real,
                           humanQuality: real)

  /** What the scores are computed from. */
  datatype Summary = Summary(quality: real, success: real, evidence: real, tokens: real, latencyPenalty: real,
                             variancePenalty: real)

  function Percent(value: real): real { Clamp(value, 0.0, 100.0) }

  function LatencyPenalty(p95: Option<real>): real {
    if p95.Some? then Clamp((p95.value - 5.0) * 2.0, 0.0, 40.0) else 0.0
  }

  function Summarize(rows: seq<Row>, sqrt: real -> real): Summary {
    var success := Collect(rows, SuccessOf);
    var quality := Collect(rows, QualityOf);
    var successRate := MeanOrZero(success);
    var p95 := Quantile(Collect(rows, ElapsedOf), 0.95);
    Summary(
      Percent(if quality != [] then MeanOrZero(quality) else successRate * 100.0),
      Percent(successRate * 100.0),
      Percent(MeanOrZero(Collect(rows, EvidenceOf)) * 100.0),
      Percent(MeanOrZero(Collect(rows, TokensOf)) * 100.0),
      LatencyPenalty(p95),
      Clamp(Stdev(success, sqrt) * 60.0, 0.0, 25.0))
  }

  /** The scores before the confidence factor. */
  function RawScores(s: Summary): Scores {
    var evaluation := Percent(s.quality * 0.45 + s.success * 0.35 + s.evidence * 0.1 + s.tokens * 0.1);
    var safety := Percent(s.success * 0.6 + s.quality * 0.3 + s.evidence * 0.1);
    var taskQuality := Percent(s.quality * 0.7 + s.success * 0.3);
    var reliability :=
      Percent(s.success * 0.75 + s.quality * 0.15 + s.tokens * 0.1 - s.latencyPenalty - s.variancePenalty);
    var humanQuality := Percent(s.quality * 0.6 + s.evidence * 0.4);
    Scores(evaluation, safety, taskQuality, reliability,
           Percent(Min(Min(Min(evaluation, safety), taskQuality), reliability)), humanQuality)
  }

  function Confidence(count: nat): (c: real)
    ensures 0.6 <= c <= 1.0 && (c == 1.0 <==> count >= 5)
  {
    0.6 + 0.4 * Min(1.0, count as real / 5.0)
  }

  /** `_apply_confidence`. */
  function ApplyConfidence(score: real, c: real): real { Percent(Times(score, c)) }

  function Times(a: real, b: real): real { a * b }

  function Confident(raw: Scores, c: real): Scores {
    Scores(ApplyConfidence(raw.evaluation, c), ApplyConfidence(raw.safety, c), ApplyConfidence(raw.taskQuality, c),
           ApplyConfidence(raw.reliability, c), ApplyConfidence(raw.release, c), ApplyConfidence(raw.humanQuality, c))
  }

  /** `compute_track_family_scores`, before rounding. */
  function TrackFamilyScores(rows: seq<Row>, sqrt: real -> real): Scores {
    Confident(RawScores(Summarize(rows, sqrt)), Confidence(|rows|))
  }

  /** What each component is worth to the six scores. */
  lemma ScoreShares()
    ensures RawScores(Summary(100.0, 0.0, 0.0, 0.0, 0.0, 0.0)) == Scores(45.0, 30.0, 70.0, 15.0, 15.0, 60.0)
    ensures RawScores(Summary(0.0, 100.0, 0.0, 0.0, 0.0, 0.0)) == Scores(35.0, 60.0, 30.0, 75.0, 30.0, 0.0)
    ensures RawScores(Summary(0.0, 0.0, 100.0, 0.0, 0.0, 0.0)) == Scores(10.0, 10.0, 0.0, 0.0, 0.0, 40.0)
    ensures RawScores(Summary(0.0, 0.0, 0.0, 100.0, 0.0, 0.0)) == Scores(10.0, 0.0, 0.0, 10.0, 0.0, 0.0)
  {
  }

  /** Two summaries without penalties that stay within bounds together add up, score by score; and a
      penalty comes off the reliability alone. */
  lemma ScoresAddUp(a: Summary, b: Summary, latency: real, variance: real)
    requires IsSummary(a) && IsSummary(b) && IsSummary(Sum(a, b))
    requires a.latencyPenalty == a.variancePenalty == b.latencyPenalty == b.variancePenalty == 0.0
    requires 0.0 <= latency <= 40.0 && 0.0 <= variance <= 25.0
    ensures var ra, rb, rs := RawScores(a), RawScores(b), RawScores(Sum(a, b));
            && rs.evaluation == ra.evaluation + rb.evaluation && rs.safety == ra.safety + rb.safety
            && rs.taskQuality == ra.taskQuality + rb.taskQuality && rs.reliability == ra.reliability + rb.reliability
            && rs.humanQuality == ra.humanQuality + rb.humanQuality
    ensures var r, less := RawScores(a), RawScores(a.(latencyPenalty := latency, variancePenalty := variance));
            && less.reliability == Max(0.0, r.reliability - latency - variance)
            && less.evaluation == r.evaluation && less.safety == r.safety && less.taskQuality == r.taskQuality
            && less.humanQuality == r.humanQuality
  {
    hide RawScores, Percent;
    Unclipped(a);
    Unclipped(b);
    Unclipped(Sum(a, b));
    Penalized(a, latency, variance);
  }

  lemma PercentFixed(x: real)
    requires IsPercent(x)
    ensures Percent(x) == x
  {
  }

  /** Without penalties nothing is cut off at 0 or 100. */
  lemma Unclipped(s: Summary)
    requires IsSummary(s) && s.latencyPenalty == s.variancePenalty == 0.0
    ensures var r := RawScores(s);
            && r.evaluation == s.quality * 0.45 + s.success * 0.35 + s.evidence * 0.1 + s.tokens * 0.1
            && r.safety == s.success * 0.6 + s.quality * 0.3 + s.evidence * 0.1
            && r.taskQuality == s.quality * 0.7 + s.success * 0.3
            && r.reliability == s.success * 0.75 + s.quality * 0.15 + s.tokens * 0.1
            && r.humanQuality == s.quality * 0.6 + s.evidence * 0.4
  {
    hide Percent;
    PercentFixed(s.quality * 0.45 + s.success * 0.35 + s.evidence * 0.1 + s.tokens * 0.1);
    PercentFixed(s.success * 0.6 + s.quality * 0.3 + s.evidence * 0.1);
    PercentFixed(s.quality * 0.7 + s.success * 0.3);
    PercentFixed(s.success * 0.75 + s.quality * 0.15 + s.tokens * 0.1);
    PercentFixed(s.quality * 0.6 + s.evidence * 0.4);
  }

  lemma Penalized(s: Summary, latency: real, variance: real)
    requires IsSummary(s) && s.latencyPenalty == s.variancePenalty == 0.0
    requires 0.0 <= latency <= 40.0 && 0.0 <= variance <= 25.0
    ensures var r, less := RawScores(s), RawScores(s.(latencyPenalty := latency, variancePenalty := variance));
            && less.reliability == Max(0.0, r.reliability - latency - variance)
            && less.evaluation == r.evaluation && less.safety == r.safety && less.taskQuality == r.taskQuality
            && less.humanQuality == r.humanQuality
  {
    Unclipped(s);
    var before := s.success * 0.75 + s.quality * 0.15 + s.tokens * 0.1;
    hide Percent;
    assert Percent(before - latency - variance) == Max(0.0, before - latency - variance) by {
      CutBelow(before - latency - variance);
    }
  }

  lemma CutBelow(x: real)
    requires x <= 100.0
    ensures Percent(x) == Max(0.0, x)
  {
  }

  function Sum(a: Summary, b: Summary): Summary {
    Summary(a.quality + b.quality, a.success + b.success, a.evidence + b.evidence, a.tokens + b.tokens, 0.0, 0.0)
  }

  ghost predicate IsSummary(s: Summary) {
    IsPercent(s.quality) && IsPercent(s.success) && IsPercent(s.evidence) && IsPercent(s.tokens)
  }

  lemma {:induction false} CollectEqual(rows: seq<Row>, f: Row -> Option<real>, x: Option<real>)
    requires forall row :: row in rows ==> f(row) == x
    ensures |Collect(rows, f)| == (if x.Some? then |rows| else 0)
    ensures forall v :: v in Collect(rows, f) ==> x == Some(v)
  {
    if rows != [] { CollectEqual(rows[1..], f, x); }
  }

  lemma CollectedMean(rows: seq<Row>, f: Row -> Option<real>, x: real)
    requires rows != [] && forall row :: row in rows ==> f(row) == Some(x)
    ensures Collect(rows, f) != [] && MeanOrZero(Collect(rows, f)) == x
    ensures forall v :: v in Collect(rows, f) ==> v == x
  {
    CollectEqual(rows, f, Some(x));
    MeanOfEqual(Collect(rows, f), x);
  }

  lemma QuantileOfEqual(values: seq<real>, x: real, q: real)
    requires values != [] && forall v :: v in values ==> v == x
    ensures Quantile(values, q) == Some(x)
  {
    hide Ordered, AtIndex;
    QuantileRange(values, q);
    assert values[0] in values && values[0] == x;
    assert IsLeast(x, values) && IsGreatest(x, values);
  }

  lemma CollectedNothing(rows: seq<Row>, f: Row -> Option<real>)
    requires forall row :: row in rows ==> f(row) == None
    ensures Collect(rows, f) == []
  {
    CollectEqual(rows, f, None);
  }

  /** The value all rows have for a field, 0 if they have none. */
  lemma CollectedSame(rows: seq<Row>, f: Row -> Option<real>, x: Option<real>, sqrt: real -> real)
    requires rows != [] && (forall row :: row in rows ==> f(row) == x) && sqrt(0.0) == 0.0
    ensures var values := Collect(rows, f);
            && (values == [] <==> x.None?) && MeanOrZero(values) == (if x.None? then 0.0 else x.value)
            && Quantile(values, 0.95) == x && Stdev(values, sqrt) == 0.0
  {
    if x.None? {
      CollectedNothing(rows, f);
    } else {
      CollectedMean(rows, f, x.value);
      QuantileOfEqual(Collect(rows, f), x.value, 0.95);
      StdevOfEqual(Collect(rows, f), x.value, sqrt);
    }
  }

  /** Rows that all say the same are summarized as what they say: success, evidence and telemetry as 0 or 100,
      the quality as it is, or as the success if there is none, two points of penalty for each second from the
      fifth on, up to forty, and no variance. */
  lemma EqualRowsSummary(rows: seq<Row>, row: Row, sqrt: real -> real)
    requires rows != [] && (forall r :: r in rows ==> r == row) && sqrt(0.0) == 0.0
    ensures var s, success := Summarize(rows, sqrt), if row.success == Some(true) then 100.0 else 0.0;
            && s.success == success && s.evidence == (if row.evidence then 100.0 else 0.0)
            && s.tokens == (if row.tokens then 100.0 else 0.0) && s.variancePenalty == 0.0
            && (row.quality.None? ==> s.quality == success)
            && (row.quality.Some? ==> s.quality == Percent(row.quality.value))
            && (row.elapsed.None? || row.elapsed.value <= 5.0 ==> s.latencyPenalty == 0.0)
            && (row.elapsed.Some? && 5.0 <= row.elapsed.value <= 25.0 ==>
                    s.latencyPenalty == (row.elapsed.value - 5.0) * 2.0)
            && (row.elapsed.Some? && row.elapsed.value >= 25.0 ==> s.latencyPenalty == 40.0)
  {
    hide Summarize;
    RatesOfEqual(rows, row, sqrt);
    PenaltiesOfEqual(rows, row, sqrt);
  }

  lemma RatesOfEqual(rows: seq<Row>, row: Row, sqrt: real -> real)
    requires rows != [] && (forall r :: r in rows ==> r == row) && sqrt(0.0) == 0.0
    ensures var s, success := Summarize(rows, sqrt), if row.success == Some(true) then 100.0 else 0.0;
            && s.success == success && s.evidence == (if row.evidence then 100.0 else 0.0)
            && s.tokens == (if row.tokens then 100.0 else 0.0)
            && (row.quality.None? ==> s.quality == success)
            && (row.quality.Some? ==> s.quality == Percent(row.quality.value))
  {
    hide *;
    FieldsOfEqual(rows, row, sqrt);
    SummaryFields(rows, sqrt, MeanOrZero(Collect(rows, SuccessOf)), row.elapsed);
    PercentOfFlag(row.success == Some(true));
    PercentOfFlag(row.evidence);
    PercentOfFlag(row.tokens);
  }

  lemma PenaltiesOfEqual(rows: seq<Row>, row: Row, sqrt: real -> real)
    requires rows != [] && (forall r :: r in rows ==> r == row) && sqrt(0.0) == 0.0
    ensures var s := Summarize(rows, sqrt);
            && s.variancePenalty == 0.0
            && (row.elapsed.None? || row.elapsed.value <= 5.0 ==> s.latencyPenalty == 0.0)
            && (row.elapsed.Some? && 5.0 <= row.elapsed.value <= 25.0 ==>
                    s.latencyPenalty == (row.elapsed.value - 5.0) * 2.0)
            && (row.elapsed.Some? && row.elapsed.value >= 25.0 ==> s.latencyPenalty == 40.0)
  {
    hide *;
    FieldsOfEqual(rows, row, sqrt);
    SummaryFields(rows, sqrt, MeanOrZero(Collect(rows, SuccessOf)), row.elapsed);
    LatencyPenaltyOf(row.elapsed);
  }

  lemma FieldsOfEqual(rows: seq<Row>, row: Row, sqrt: real -> real)
    requires rows != [] && (forall r :: r in rows ==> r == row) && sqrt(0.0) == 0.0
    ensures MeanOrZero(Collect(rows, SuccessOf)) == Flag(row.success == Some(true))
    ensures Stdev(Collect(rows, SuccessOf), sqrt) == 0.0
    ensures Collect(rows, QualityOf) == [] <==> row.quality.None?
    ensures row.quality.Some? ==> MeanOrZero(Collect(rows, QualityOf)) == row.quality.value
    ensures Quantile(Collect(rows, ElapsedOf), 0.95) == row.elapsed
    ensures MeanOrZero(Collect(rows, EvidenceOf)) == Flag(row.evidence)
    ensures MeanOrZero(Collect(rows, TokensOf)) == Flag(row.tokens)
  {
    CollectedSame(rows, SuccessOf, SuccessOf(row), sqrt);
    CollectedSame(rows, QualityOf, row.quality, sqrt);
    CollectedSame(rows, ElapsedOf, row.elapsed, sqrt);
    CollectedSame(rows, EvidenceOf, EvidenceOf(row), sqrt);
    CollectedSame(rows, TokensOf, TokensOf(row), sqrt);
    hide Collect, Quantile, MeanOrZero, Stdev;
  }

  lemma SummaryFields(rows: seq<Row>, sqrt: real -> real, rate: real, p95: Option<real>)
    requires rate == MeanOrZero(Collect(rows, SuccessOf)) && p95 == Quantile(Collect(rows, ElapsedOf), 0.95)
    requires Stdev(Collect(rows, SuccessOf), sqrt) == 0.0
    ensures var s, quality := Summarize(rows, sqrt), Collect(rows, QualityOf);
            && s.success == Percent(rate * 100.0)
            && s.quality == Percent(if quality != [] then MeanOrZero(quality) else rate * 100.0)
            && s.evidence == Percent(MeanOrZero(Collect(rows, EvidenceOf)) * 100.0)
            && s.tokens == Percent(MeanOrZero(Collect(rows, TokensOf)) * 100.0)
            && s.latencyPenalty == LatencyPenalty(p95)
            && s.variancePenalty == 0.0
  {
    hide Collect, Quantile, MeanOrZero, Stdev, Percent, LatencyPenalty;
    NoVariance();
  }

  lemma PercentOfFlag(b: bool)
    ensures Percent(Flag(b) * 100.0) == if b then 100.0 else 0.0
  {
  }

  lemma LatencyPenaltyOf(elapsed: Option<real>)
    ensures elapsed.None? || elapsed.value <= 5.0 ==> LatencyPenalty(elapsed) == 0.0
    ensures elapsed.Some? && 5.0 <= elapsed.value <= 25.0 ==> LatencyPenalty(elapsed) == (elapsed.value - 5.0) * 2.0
    ensures elapsed.Some? && elapsed.value >= 25.0 ==> LatencyPenalty(elapsed) == 40.0
  {
  }

  lemma NoVariance()
    ensures Clamp(0.0 * 60.0, 0.0, 25.0) == 0.0
  {
  }

  lemma StdevOfEqual(values: seq<real>, x: real, sqrt: real -> real)
    requires values != [] && (forall v :: v in values ==> v == x) && sqrt(0.0) == 0.0
    ensures Stdev(values, sqrt) == 0.0
  {
    MeanOfEqual(values, x);
    SumOfEqual(values, x, SquareAround(x));
  }

  /** Five rows or more earn full confidence; each row short of five costs eight hundredths. */
  lemma ConfidenceOf(count: nat)
    ensures Confidence(count) == if count >= 5 then 1.0 else 0.6 + 0.08 * count as real
  {
  }

  ghost predicate IsPercent(x: real) { 0.0 <= x <= 100.0 }

  lemma SummaryIsPercent(rows: seq<Row>, sqrt: real -> real)
    ensures var s := Summarize(rows, sqrt);
            && IsPercent(s.quality) && IsPercent(s.success) && IsPercent(s.evidence) && IsPercent(s.tokens)
            && 0.0 <= s.latencyPenalty <= 40.0 && 0.0 <= s.variancePenalty <= 25.0
  {
    hide MeanOrZero, Quantile, Stdev, Collect;
  }

  /** Applying confidence keeps scores in range and in order, and keeps only a full score full
      when the confidence is full. */
  lemma ScaleOrder(a: real, b: real, c: real)
    requires IsPercent(a) && IsPercent(b) && 0.6 <= c <= 1.0
    ensures IsPercent(ApplyConfidence(a, c))
    ensures a <= b <==> ApplyConfidence(a, c) <= ApplyConfidence(b, c)
    ensures ApplyConfidence(a, c) == 100.0 <==> a == 100.0 && c == 1.0
  {
    hide Times;
    ScaledValue(a, c);
    ScaledValue(b, c);
    ScaledOrder(a, b, c);
  }

  lemma ScaledOrder(a: real, b: real, c: real)
    requires c > 0.0
    ensures a <= b <==> Times(a, c) <= Times(b, c)
  {
    if a <= b {
      Product(b - a, c);
      Distribute(a, b - a, c);
    } else {
      Positive(a - b, c);
      Distribute(b, a - b, c);
    }
  }

  lemma Distribute(a: real, d: real, c: real)
    ensures (a + d) * c == a * c + d * c
  {
  }

  lemma ScaledValue(a: real, c: real)
    requires IsPercent(a) && 0.6 <= c <= 1.0
    ensures IsPercent(Times(a, c)) && ApplyConfidence(a, c) == Times(a, c)
    ensures Times(a, c) == 100.0 <==> a == 100.0 && c == 1.0
  {
    Product(a, c);
    Product(a, 1.0 - c);
    assert a * c == a - a * (1.0 - c);
    if a == 100.0 { assert a * c == 100.0 * c; }
  }

  lemma Positive(x: real, y: real)
    requires x > 0.0 && y > 0.0
    ensures x * y > 0.0
  {
  }

  /** All six scores lie in [0, 100], and the release score is exactly the least of the
      evaluation, safety, task-quality and reliability scores. */
  lemma ScoresInRange(rows: seq<Row>, sqrt: real -> real)
    ensures InRange(TrackFamilyScores(rows, sqrt))
  {
    hide Summarize, Confidence, RawScores;
    var raw, c := RawScores(Summarize(rows, sqrt)), Confidence(|rows|);
    RawInRange(Summarize(rows, sqrt));
    ConfidentInRange(raw, c);
  }

  /** Six scores in [0, 100] of which the release score is the least of the four it sums up. */
  ghost predicate InRange(s: Scores) {
    && IsPercent(s.evaluation) && IsPercent(s.safety) && IsPercent(s.taskQuality)
    && IsPercent(s.reliability) && IsPercent(s.release) && IsPercent(s.humanQuality)
    && s.release <= s.evaluation && s.release <= s.safety && s.release <= s.taskQuality && s.release <= s.reliability
    && (s.release == s.evaluation || s.release == s.safety || s.release == s.taskQuality || s.release == s.reliability)
  }

  lemma RawInRange(s: Summary)
    ensures InRange(RawScores(s))
  {
  }

  lemma ConfidentInRange(raw: Scores, c: real)
    requires InRange(raw) && 0.6 <= c <= 1.0
    ensures InRange(Confident(raw, c))
  {
    hide ApplyConfidence;
    ScaleOrder(raw.release, raw.evaluation, c);
    ScaleOrder(raw.release, raw.safety, c);
    ScaleOrder(raw.release, raw.taskQuality, c);
    ScaleOrder(raw.release, raw.reliability, c);
    ScaleOrder(raw.evaluation, raw.safety, c);
    ScaleOrder(raw.safety, raw.taskQuality, c);
    ScaleOrder(raw.taskQuality, raw.reliability, c);
    ScaleOrder(raw.reliability, raw.humanQuality, c);
    ScaleOrder(raw.humanQuality, raw.release, c);
  }

  lemma {:induction false} CollectConcat(a: seq<Row>, b: seq<Row>, f: Row -> Option<real>)
    ensures Collect(a + b, f) == Collect(a, f) + Collect(b, f)
  {
    if a == [] {
      assert a + b == b;
    } else {
      assert (a + b)[1..] == a[1..] + b;
      CollectConcat(a[1..], b, f);
    }
  }

  lemma {:induction false} CollectPermuted(rows: seq<Row>, other: seq<Row>, f: Row -> Option<real>)
    requires multiset(rows) == multiset(other)
    ensures multiset(Collect(rows, f)) == multiset(Collect(other, f))
    decreases |rows|
  {
    hide Collect;
    SameMembers(rows, other);
    if rows == [] {
      assert other == rows;
    } else {
      var i := TakeOut(rows, other);
      var left, right := other[..i], other[i + 1..];
      CollectPermuted(rows[1..], left + right, f);
      CollectConcat(left, right, f);
      CollectAround([], rows[0], rows[1..], f);
      CollectAround(left, rows[0], right, f);
      assert other == left + ([rows[0]] + right);
      assert rows == [] + ([rows[0]] + rows[1..]);
      assert [] + Collect(rows[1..], f) == Collect(rows[1..], f);
    }
  }

  lemma CollectAround(left: seq<Row>, row: Row, right: seq<Row>, f: Row -> Option<real>)
    ensures multiset(Collect(left + ([row] + right), f))
            == multiset(AsSeq(f(row))) + multiset(Collect(left, f) + Collect(right, f))
    ensures Collect([], f) == []
  {
    hide AsSeq;
    CollectConcat(left, [row] + right, f);
    assert ([row] + right)[1..] == right;
  }

  lemma MeanPermuted(values: seq<real>, other: seq<real>)
    requires multiset(values) == multiset(other)
    ensures MeanOrZero(values) == MeanOrZero(other) && |values| == |other|
  {
    SameMembers(values, other);
    SumPermuted(values, other, Itself());
  }

  lemma StdevPermuted(values: seq<real>, other: seq<real>, sqrt: real -> real)
    requires multiset(values) == multiset(other)
    ensures Stdev(values, sqrt) == Stdev(other, sqrt)
  {
    MeanPermuted(values, other);
    SumPermuted(values, other, SquareAround(MeanOrZero(values)));
  }

  /** The scores depend on which rows there are, not on their order. */
  lemma ScoresPermuted(rows: seq<Row>, other: seq<Row>, sqrt: real -> real)
    requires multiset(rows) == multiset(other)
    ensures TrackFamilyScores(rows, sqrt) == TrackFamilyScores(other, sqrt)
  {
    hide MeanOrZero, Quantile, Stdev, Collect, Percent, Clamp;
    SameMembers(rows, other);
    CollectPermuted(rows, other, SuccessOf);
    CollectPermuted(rows, other, QualityOf);
    CollectPermuted(rows, other, ElapsedOf);
    CollectPermuted(rows, other, EvidenceOf);
    CollectPermuted(rows, other, TokensOf);
    MeanPermuted(Collect(rows, SuccessOf), Collect(other, SuccessOf));
    MeanPermuted(Collect(rows, QualityOf), Collect(other, QualityOf));
    MeanPermuted(Collect(rows, EvidenceOf), Collect(other, EvidenceOf));
    MeanPermuted(Collect(rows, TokensOf), Collect(other, TokensOf));
    StdevPermuted(Collect(rows, SuccessOf), Collect(other, SuccessOf), sqrt);
    QuantilePermuted(Collect(rows, ElapsedOf), Collect(other, ElapsedOf), 0.95);
  }

  predicate Flawless(s: Summary) {
    s.quality == s.success == s.evidence == s.tokens == 100.0 && s.latencyPenalty == s.variancePenalty == 0.0
  }

  /** The release score is full exactly when there are five rows or more, every component is full
      and neither penalty applies. */
  lemma FullReleaseIff(rows: seq<Row>, sqrt: real -> real)
    ensures TrackFamilyScores(rows, sqrt).release == 100.0
            <==> |rows| >= 5 && var s := Summarize(rows, sqrt);
                 Flawless(s)
  {
    hide Summarize, Confidence, RawScores, ApplyConfidence;
    SummaryIsPercent(rows, sqrt);
    var s, c := Summarize(rows, sqrt), Confidence(|rows|);
    FullRawIff(s);
    RawInRange(s);
    ScaleOrder(RawScores(s).release, 0.0, c);
  }

  lemma FullRawIff(s: Summary)
    requires IsPercent(s.quality) && IsPercent(s.success) && IsPercent(s.evidence) && IsPercent(s.tokens)
    requires 0.0 <= s.latencyPenalty <= 40.0 && 0.0 <= s.variancePenalty <= 25.0
    ensures RawScores(s).release == 100.0
            <==> Flawless(s)
  {
  }

  /** `t` is at least as good as `s` in every component and no worse in either penalty. */
  ghost predicate AtLeastAsGood(t: Summary, s: Summary) {
    && t.quality >= s.quality && t.success >= s.success && t.evidence >= s.evidence && t.tokens >= s.tokens
    && t.latencyPenalty <= s.latencyPenalty && t.variancePenalty <= s.variancePenalty
  }

  ghost predicate AllAtLeast(a: Scores, b: Scores) {
    && a.evaluation >= b.evaluation && a.safety >= b.safety && a.taskQuality >= b.taskQuality
    && a.reliability >= b.reliability && a.release >= b.release && a.humanQuality >= b.humanQuality
  }

  lemma RawMonotone(s: Summary, t: Summary)
    requires AtLeastAsGood(t, s)
    ensures AllAtLeast(RawScores(t), RawScores(s))
  {
  }

  /** Among equally many rows, better components never lower any of the six scores. */
  lemma ScoresMonotone(rows: seq<Row>, better: seq<Row>, sqrt: real -> real)
    requires |rows| == |better| && AtLeastAsGood(Summarize(better, sqrt), Summarize(rows, sqrt))
    ensures AllAtLeast(TrackFamilyScores(better, sqrt), TrackFamilyScores(rows, sqrt))
  {
    hide Summarize, Confidence, RawScores, ApplyConfidence;
    var c := Confidence(|rows|);
    var low, high := RawScores(Summarize(rows, sqrt)), RawScores(Summarize(better, sqrt));
    RawMonotone(Summarize(rows, sqrt), Summarize(better, sqrt));
    RawInRange(Summarize(rows, sqrt));
    RawInRange(Summarize(better, sqrt));
    ScaleOrder(low.evaluation, high.evaluation, c);
    ScaleOrder(low.safety, high.safety, c);
    ScaleOrder(low.taskQuality, high.taskQuality, c);
    ScaleOrder(low.reliability, high.reliability, c);
    ScaleOrder(low.release, high.release, c);
    ScaleOrder(low.humanQuality, high.humanQuality, c);
  }
}
