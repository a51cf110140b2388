/** The screenshot comparison of `scripts/refresh_site_visual_proof.py`: a symmetric, two-tier
    pixel difference over arrays that wrap around at the borders. */
module PixelDiff {
  import opened Strings

  const STRICT_TOLERANCE := 8
  const RADIUS := 1
  const EDGE_TOLERANCE := 24
  const EDGE_CONTRAST := 24

  datatype Pixel = Pixel(r: int, g: int, b: int)

  function Channel(p: Pixel, c: int): int { if c == 0 then p.r else if c == 1 then p.g else p.b }

  function Min(a: int, b: int): int { if a <= b then a else b }

  function Max(a: int, b: int): int { if a <= b then b else a }

  function Abs(a: int): int { if a < 0 then -a else a }

  function MinPixel(p: Pixel, q: Pixel): Pixel { Pixel(Min(p.r, q.r), Min(p.g, q.g), Min(p.b, q.b)) }

  function MaxPixel(p: Pixel, q: Pixel): Pixel { Pixel(Max(p.r, q.r), Max(p.g, q.g), Max(p.b, q.b)) }

  function MaxChannel(p: Pixel): int { Max(Max(p.r, p.g), p.b) }

  /** The largest difference in any channel. */
  function Difference(p: Pixel, q: Pixel): int { MaxChannel(Pixel(Abs(p.r - q.r), Abs(p.g - q.g), Abs(p.b - q.b))) }

  /** Two pixels differ by more than `t` exactly when some channel of theirs does. */
  lemma DifferenceExceedsIff(p: Pixel, q: Pixel, t: int)
    ensures Difference(p, q) > t <==> || p.r - q.r > t || q.r - p.r > t || p.g - q.g > t || q.g - p.g > t
                                      || p.b - q.b > t || q.b - p.b > t
  {
  }

  function Spread(hi: Pixel, lo: Pixel): int { MaxChannel(Pixel(hi.r - lo.r, hi.g - lo.g, hi.b - lo.b)) }

  // ---------------------------------------------------------------- arrays that wrap around

  /** Rows of columns, all of one width. */
  type Plane<T> = seq<seq<T>>

  predicate Shaped<T>(p: Plane<T>, h: nat, w: nat) {
    |p| == h && forall y :: 0 <= y < h ==> |p[y]| == w
  }

  /** The index `i` brought into 0 .. n - 1 by whole turns. */
  function Wrap(i: int, n: nat): (r: nat)
    requires n > 0
    ensures r < n
    ensures 0 <= i < n ==> r == i
    decreases if i < 0 then n - i else i
  {
    if i < 0 then Wrap(i + n, n) else if i >= n then Wrap(i - n, n) else i
  }

  lemma WrapTurn(i: int, n: nat)
    requires n > 0
    ensures Wrap(i + n, n) == Wrap(i, n)
  {
  }

  lemma {:induction false} WrapOfWrap(i: int, j: int, n: nat)
    requires n > 0
    ensures Wrap(Wrap(i, n) + j, n) == Wrap(i + j, n)
    decreases if i < 0 then n - i else i
  {
    if i < 0 {
      WrapOfWrap(i + n, j, n);
      WrapTurn(i + j, n);
    } else if i >= n {
      WrapOfWrap(i - n, j, n);
      WrapTurn(i - n + j, n);
    }
  }

  /** `np.roll` along both axes. */
  function Roll<T>(p: Plane<T>, h: nat, w: nat, dy: int, dx: int): (r: Plane<T>)
    requires Shaped(p, h, w)
    ensures Shaped(r, h, w)
    ensures forall y, x :: 0 <= y < h && 0 <= x < w ==> r[y][x] == p[Wrap(y - dy, h)][Wrap(x - dx, w)]
  {
    seq(h, y requires 0 <= y < h && Shaped(p, h, w) =>
      seq(w, x requires 0 <= x < w && 0 <= y < h && Shaped(p, h, w) => p[Wrap(y - dy, h)][Wrap(x - dx, w)]))
  }

  /** An elementwise operation on two arrays. */
  function Combine<A, B, C>(a: Plane<A>, b: Plane<B>, h: nat, w: nat, f: (A, B) -> C): (r: Plane<C>)
    requires Shaped(a, h, w) && Shaped(b, h, w)
    ensures Shaped(r, h, w)
    ensures forall y, x :: 0 <= y < h && 0 <= x < w ==> r[y][x] == f(a[y][x], b[y][x])
  {
    seq(h, y requires 0 <= y < h && Shaped(a, h, w) && Shaped(b, h, w) =>
      seq(w, x requires 0 <= x < w && 0 <= y < h && Shaped(a, h, w) && Shaped(b, h, w) => f(a[y][x], b[y][x])))
  }

  type Offset = (int, int)

  predicate InWindow(o: Offset, radius: nat) { -o.0 <= radius && o.0 <= radius && -o.1 <= radius && o.1 <= radius }

  /** The pixel an offset away from (y, x), around the borders. */
  function At(p: Plane<Pixel>, h: nat, w: nat, y: nat, x: nat, o: Offset): Pixel
    requires Shaped(p, h, w) && y < h && x < w
  {
    p[Wrap(y - o.0, h)][Wrap(x - o.1, w)]
  }

  // ---------------------------------------------------------------- what the loops fold

  function LowOver(p: Plane<Pixel>, h: nat, w: nat, y: nat, x: nat, seen: seq<Offset>): Pixel
    requires Shaped(p, h, w) && y < h && x < w && seen != []
  {
    var n := |seen| - 1;
    if n == 0 then At(p, h, w, y, x, seen[0])
    else MinPixel(LowOver(p, h, w, y, x, seen[..n]), At(p, h, w, y, x, seen[n]))
  }

  function HighOver(p: Plane<Pixel>, h: nat, w: nat, y: nat, x: nat, seen: seq<Offset>): Pixel
    requires Shaped(p, h, w) && y < h && x < w && seen != []
  {
    var n := |seen| - 1;
    if n == 0 then At(p, h, w, y, x, seen[0])
    else MaxPixel(HighOver(p, h, w, y, x, seen[..n]), At(p, h, w, y, x, seen[n]))
  }

  function BestOver(s: Pixel, p: Plane<Pixel>, h: nat, w: nat, y: nat, x: nat, seen: seq<Offset>): int
    requires Shaped(p, h, w) && y < h && x < w && seen != []
  {
    var n := |seen| - 1;
    var last := Difference(s, At(p, h, w, y, x, seen[n]));
    if n == 0 then last else Min(BestOver(s, p, h, w, y, x, seen[..n]), last)
  }

  lemma {:induction false} LowIsLeast(p: Plane<Pixel>, h: nat, w: nat, y: nat, x: nat, seen: seq<Offset>, c: int)
    requires Shaped(p, h, w) && y < h && x < w && seen != []
    ensures forall k :: 0 <= k < |seen| ==>
            Channel(LowOver(p, h, w, y, x, seen), c) <= Channel(At(p, h, w, y, x, seen[k]), c)
    ensures exists k ::
              0 <= k < |seen| && Channel(LowOver(p, h, w, y, x, seen), c) == Channel(At(p, h, w, y, x, seen[k]), c)
  {
    hide At;
    var n := |seen| - 1;
    if n == 0 {
      assert LowOver(p, h, w, y, x, seen) == At(p, h, w, y, x, seen[0]);
    } else {
      LowIsLeast(p, h, w, y, x, seen[..n], c);
      assert forall k :: 0 <= k < n ==> seen[..n][k] == seen[k];
      var before := LowOver(p, h, w, y, x, seen[..n]);
      var k :| 0 <= k < n && Channel(before, c) == Channel(At(p, h, w, y, x, seen[..n][k]), c);
      var all := Channel(LowOver(p, h, w, y, x, seen), c);
      assert all == Channel(At(p, h, w, y, x, seen[k]), c) || all == Channel(At(p, h, w, y, x, seen[n]), c);
    }
  }

  lemma {:induction false} HighIsGreatest(p: Plane<Pixel>, h: nat, w: nat, y: nat, x: nat, seen: seq<Offset>, c: int)
    requires Shaped(p, h, w) && y < h && x < w && seen != []
    ensures forall k :: 0 <= k < |seen| ==>
            Channel(HighOver(p, h, w, y, x, seen), c) >= Channel(At(p, h, w, y, x, seen[k]), c)
    ensures exists k ::
              0 <= k < |seen| && Channel(HighOver(p, h, w, y, x, seen), c) == Channel(At(p, h, w, y, x, seen[k]), c)
  {
    hide At;
    var n := |seen| - 1;
    if n == 0 {
      assert HighOver(p, h, w, y, x, seen) == At(p, h, w, y, x, seen[0]);
    } else {
      HighIsGreatest(p, h, w, y, x, seen[..n], c);
      assert forall k :: 0 <= k < n ==> seen[..n][k] == seen[k];
      var before := HighOver(p, h, w, y, x, seen[..n]);
      var k :| 0 <= k < n && Channel(before, c) == Channel(At(p, h, w, y, x, seen[..n][k]), c);
      var all := Channel(HighOver(p, h, w, y, x, seen), c);
      assert all == Channel(At(p, h, w, y, x, seen[k]), c) || all == Channel(At(p, h, w, y, x, seen[n]), c);
    }
  }

  lemma {:induction false} BestIsLeast(s: Pixel, p: Plane<Pixel>, h: nat, w: nat, y: nat, x: nat, seen: seq<Offset>,
      t: int)
    requires Shaped(p, h, w) && y < h && x < w && seen != []
    ensures BestOver(s, p, h, w, y, x, seen) <= t
            <==> exists k :: 0 <= k < |seen| && Difference(s, At(p, h, w, y, x, seen[k])) <= t
  {
    hide At, Difference;
    var n := |seen| - 1;
    if n > 0 {
      BestIsLeast(s, p, h, w, y, x, seen[..n], t);
      assert forall k :: 0 <= k < n ==> seen[..n][k] == seen[k];
    }
  }

  // ---------------------------------------------------------------- what a pixel's verdict means

  /** Two pixels of the window differ by the edge contrast in some channel. */
  ghost predicate Edgy(p: Plane<Pixel>, h: nat, w: nat, y: nat, x: nat, radius: nat)
    requires Shaped(p, h, w) && y < h && x < w
  {
    exists c :: 0 <= c < 3 && ChannelGap(p, h, w, y, x, radius, c)
  }

  ghost predicate ChannelGap(p: Plane<Pixel>, h: nat, w: nat, y: nat, x: nat, radius: nat, c: int)
    requires Shaped(p, h, w) && y < h && x < w
  {
    exists o: Offset, q: Offset :: InWindow(o, radius) && InWindow(q, radius)
      && Channel(At(p, h, w, y, x, o), c) - Channel(At(p, h, w, y, x, q), c) >= EDGE_CONTRAST
  }

  /** Some pixel of the other image's window is within the edge tolerance. */
  ghost predicate HasCounterpart(s: Pixel, p: Plane<Pixel>, h: nat, w: nat, y: nat, x: nat, radius: nat)
    requires Shaped(p, h, w) && y < h && x < w
  {
    exists o: Offset :: InWindow(o, radius) && Difference(s, At(p, h, w, y, x, o)) <= EDGE_TOLERANCE
  }

  ghost predicate Mismatch(src: Plane<Pixel>, dst: Plane<Pixel>, h: nat, w: nat, y: nat, x: nat, radius: nat)
    requires Shaped(src, h, w) && Shaped(dst, h, w) && y < h && x < w
  {
    && Difference(src[y][x], dst[y][x]) > STRICT_TOLERANCE
    && !((Edgy(src, h, w, y, x, radius) || Edgy(dst, h, w, y, x, radius))
         && HasCounterpart(src[y][x], dst, h, w, y, x, radius))
  }

  ghost predicate Changed(a: Plane<Pixel>, b: Plane<Pixel>, h: nat, w: nat, y: nat, x: nat)
    requires Shaped(a, h, w) && Shaped(b, h, w) && y < h && x < w
  {
    Mismatch(b, a, h, w, y, x, RADIUS) || Mismatch(a, b, h, w, y, x, RADIUS)
  }

  /** `seen` holds the window's offsets, all of them and no others. */
  ghost predicate Covers(seen: seq<Offset>, radius: nat) {
    seen != [] && forall o: Offset :: o in seen <==> InWindow(o, radius)
  }

  lemma SpreadIffEdgy(p: Plane<Pixel>, h: nat, w: nat, y: nat, x: nat, seen: seq<Offset>, radius: nat)
    requires Shaped(p, h, w) && y < h && x < w && Covers(seen, radius)
    ensures Spread(HighOver(p, h, w, y, x, seen), LowOver(p, h, w, y, x, seen)) >= EDGE_CONTRAST
            <==> Edgy(p, h, w, y, x, radius)
  {
    hide At, HighOver, LowOver, InWindow, ChannelGap;
    var hi, lo := HighOver(p, h, w, y, x, seen), LowOver(p, h, w, y, x, seen);
    GapIff(p, h, w, y, x, seen, radius, 0);
    GapIff(p, h, w, y, x, seen, radius, 1);
    GapIff(p, h, w, y, x, seen, radius, 2);
  }

  lemma GapIff(p: Plane<Pixel>, h: nat, w: nat, y: nat, x: nat, seen: seq<Offset>, radius: nat, c: int)
    requires Shaped(p, h, w) && y < h && x < w && Covers(seen, radius)
    ensures Channel(HighOver(p, h, w, y, x, seen), c) - Channel(LowOver(p, h, w, y, x, seen), c) >= EDGE_CONTRAST
            <==> ChannelGap(p, h, w, y, x, radius, c)
  {
    hide At, HighOver, LowOver, InWindow, Channel;
    var hi, lo := HighOver(p, h, w, y, x, seen), LowOver(p, h, w, y, x, seen);
    HighIsGreatest(p, h, w, y, x, seen, c);
    LowIsLeast(p, h, w, y, x, seen, c);
    if Channel(hi, c) - Channel(lo, c) >= EDGE_CONTRAST {
      var i :| 0 <= i < |seen| && Channel(hi, c) == Channel(At(p, h, w, y, x, seen[i]), c);
      var j :| 0 <= j < |seen| && Channel(lo, c) == Channel(At(p, h, w, y, x, seen[j]), c);
      assert InWindow(seen[i], radius) && InWindow(seen[j], radius);
    }
    if ChannelGap(p, h, w, y, x, radius, c) {
      var o: Offset, q: Offset :| InWindow(o, radius) && InWindow(q, radius)
        && Channel(At(p, h, w, y, x, o), c) - Channel(At(p, h, w, y, x, q), c) >= EDGE_CONTRAST;
      assert o in seen && q in seen;
    }
  }

  lemma BestIffCounterpart(s: Pixel, p: Plane<Pixel>, h: nat, w: nat, y: nat, x: nat, seen: seq<Offset>, radius: nat)
    requires Shaped(p, h, w) && y < h && x < w && Covers(seen, radius)
    ensures BestOver(s, p, h, w, y, x, seen) <= EDGE_TOLERANCE <==> HasCounterpart(s, p, h, w, y, x, radius)
  {
    hide At, BestOver, InWindow, Difference;
    BestIsLeast(s, p, h, w, y, x, seen, EDGE_TOLERANCE);
    if HasCounterpart(s, p, h, w, y, x, radius) {
      var o: Offset :| InWindow(o, radius) && Difference(s, At(p, h, w, y, x, o)) <= EDGE_TOLERANCE;
      assert o in seen;
    }
  }

  // ---------------------------------------------------------------- the comparison as the script runs it

  /** `_local_contrast`: each value is the window's spread, and so reaches the threshold exactly
      on edgy pixels. */
  method LocalContrast(arr: Plane<Pixel>, h: nat, w: nat, radius: nat) returns (contrast: Plane<int>)
    requires Shaped(arr, h, w)
    ensures Shaped(contrast, h, w)
    ensures forall y, x :: 0 <= y < h && 0 <= x < w ==>
              (contrast[y][x] >= EDGE_CONTRAST <==> Edgy(arr, h, w, y, x, radius))
  {
    hide At, MinPixel, MaxPixel, Spread, Edgy, Shaped, Wrap;
    var lo, hi := arr, arr;
    ghost var seen: seq<Offset> := [(0, 0)];
    FirstOffset(arr, h, w);
    var start: int := 0 - (radius as int);
    for dy := start to radius + 1
      invariant Folded(arr, h, w, lo, hi, seen)
      invariant forall o: Offset :: o in seen <==> o == (0, 0) || (InWindow(o, radius) && o.0 < dy)
    {
      for dx := start to radius + 1
        invariant Folded(arr, h, w, lo, hi, seen)
        invariant forall o: Offset :: o in seen <==>
                    o == (0, 0) || (InWindow(o, radius) && (o.0 < dy || (o.0 == dy && o.1 < dx)))
      {
        if dy == 0 && dx == 0 {
          continue;
        }
        var shifted := Roll(arr, h, w, dy, dx);
        ghost var was := seen;
        FoldStep(arr, h, w, lo, hi, seen, (dy, dx));
        lo := Combine(lo, shifted, h, w, MinPixel);
        hi := Combine(hi, shifted, h, w, MaxPixel);
        seen := seen + [(dy, dx)];
      }
    }
    contrast := Combine(hi, lo, h, w, Spread);
    forall y, x | 0 <= y < h && 0 <= x < w ensures contrast[y][x] >= EDGE_CONTRAST <==> Edgy(arr, h, w, y, x, radius) {
      SpreadIffEdgy(arr, h, w, y, x, seen, radius);
    }
  }

  ghost predicate Folded(arr: Plane<Pixel>, h: nat, w: nat, lo: Plane<Pixel>, hi: Plane<Pixel>, seen: seq<Offset>)
    requires Shaped(arr, h, w)
  {
    && seen != [] && Shaped(lo, h, w) && Shaped(hi, h, w)
    && forall y, x :: 0 <= y < h && 0 <= x < w ==>
            lo[y][x] == LowOver(arr, h, w, y, x, seen) && hi[y][x] == HighOver(arr, h, w, y, x, seen)
  }

  lemma FirstOffset(arr: Plane<Pixel>, h: nat, w: nat)
    requires Shaped(arr, h, w)
    ensures Folded(arr, h, w, arr, arr, [(0, 0)])
  {
    hide Wrap;
    forall y, x | 0 <= y < h && 0 <= x < w ensures At(arr, h, w, y, x, (0, 0)) == arr[y][x] {
    }
  }

  lemma FoldStep(arr: Plane<Pixel>, h: nat, w: nat, lo: Plane<Pixel>, hi: Plane<Pixel>, seen: seq<Offset>, o: Offset)
    requires Shaped(arr, h, w) && Folded(arr, h, w, lo, hi, seen)
    ensures var shifted := Roll(arr, h, w, o.0, o.1);
            Folded(arr, h, w, Combine(lo, shifted, h, w, MinPixel), Combine(hi, shifted, h, w, MaxPixel), seen + [o])
  {
    hide MinPixel, MaxPixel;
    var more := seen + [o];
    assert more[..|more| - 1] == seen;
  }

  /** `_directional_mismatch`. */
  method DirectionalMismatch(src: Plane<Pixel>, dst: Plane<Pixel>, h: nat, w: nat, radius: nat)
    returns (mismatch: Plane<bool>)
    requires Shaped(src, h, w) && Shaped(dst, h, w)
    ensures Shaped(mismatch, h, w)
    ensures forall y, x :: 0 <= y < h && 0 <= x < w ==> (mismatch[y][x] <==> Mismatch(src, dst, h, w, y, x, radius))
  {
    hide At, Difference, Edgy, HasCounterpart, Wrap, InWindow, BestOver, Swept, Covers;
    var exact := Combine(src, dst, h, w, Difference);
    var srcContrast := LocalContrast(src, h, w, radius);
    var dstContrast := LocalContrast(dst, h, w, radius);
    var nearEdge := Combine(srcContrast, dstContrast, h, w, NearEdge);
    var best: Option<Plane<int>> := None;
    ghost var seen: seq<Offset> := [];
    var start: int := 0 - (radius as int);
    SweptNothing(radius);
    for dy := start to radius + 1
      invariant FoldedBest(src, dst, h, w, best, seen)
      invariant Swept(seen, radius, dy, start)
    {
      for dx := start to radius + 1
        invariant FoldedBest(src, dst, h, w, best, seen)
        invariant Swept(seen, radius, dy, dx)
      {
        var shifted := Roll(dst, h, w, dy, dx);
        var channelDiff := Combine(src, shifted, h, w, Difference);
        BestStep(src, dst, h, w, best, seen, (dy, dx));
        assert InWindow((dy, dx), radius) by { WithinRadius(radius, dy, dx); }
        SweptStep(seen, radius, dy, dx);
        best := Some(if best.None? then channelDiff else Combine(best.value, channelDiff, h, w, Min));
        seen := seen + [(dy, dx)];
      }
      NextRow(seen, radius, dy);
    }
    SweptAll(seen, radius);
    var close := Combine(nearEdge, best.value, h, w, CloseEnough);
    mismatch := Combine(exact, close, h, w, Fails);
    AllCounterparts(src, dst, h, w, seen, radius);
  }

  lemma AllCounterparts(src: Plane<Pixel>, dst: Plane<Pixel>, h: nat, w: nat, seen: seq<Offset>, radius: nat)
    requires Shaped(src, h, w) && Shaped(dst, h, w) && Covers(seen, radius)
    ensures forall y, x :: 0 <= y < h && 0 <= x < w ==>
              (BestOver(src[y][x], dst, h, w, y, x, seen) <= EDGE_TOLERANCE
               <==> HasCounterpart(src[y][x], dst, h, w, y, x, radius))
  {
    hide BestOver, HasCounterpart;
    forall y, x | 0 <= y < h && 0 <= x < w
      ensures BestOver(src[y][x], dst, h, w, y, x, seen) <= EDGE_TOLERANCE
              <==> HasCounterpart(src[y][x], dst, h, w, y, x, radius)
    {
      BestIffCounterpart(src[y][x], dst, h, w, y, x, seen, radius);
    }
  }

  predicate NearEdge(a: int, b: int) { a >= EDGE_CONTRAST || b >= EDGE_CONTRAST }

  predicate CloseEnough(nearEdge: bool, best: int) { nearEdge && best <= EDGE_TOLERANCE }

  predicate Fails(exact: int, close: bool) { !(exact <= STRICT_TOLERANCE || close) }

  ghost predicate FoldedBest(src: Plane<Pixel>, dst: Plane<Pixel>, h: nat, w: nat, best: Option<Plane<int>>,
      seen: seq<Offset>)
    requires Shaped(src, h, w) && Shaped(dst, h, w)
  {
    && (best.None? <==> seen == [])
    && (best.Some? ==> Shaped(best.value, h, w)
                       && forall y, x :: 0 <= y < h && 0 <= x < w ==>
                               best.value[y][x] == BestOver(src[y][x], dst, h, w, y, x, seen))
  }

  lemma BestMore(s: Pixel, p: Plane<Pixel>, h: nat, w: nat, y: nat, x: nat, seen: seq<Offset>, o: Offset)
    requires Shaped(p, h, w) && y < h && x < w
    ensures BestOver(s, p, h, w, y, x, seen + [o])
            == var last := Difference(s, At(p, h, w, y, x, o));
               if seen == [] then last else Min(BestOver(s, p, h, w, y, x, seen), last)
  {
    hide Difference, At, Min;
    var more := seen + [o];
    assert more[..|more| - 1] == seen && more[|more| - 1] == o;
  }

  lemma BestStep(src: Plane<Pixel>, dst: Plane<Pixel>, h: nat, w: nat, best: Option<Plane<int>>, seen: seq<Offset>,
      o: Offset)
    requires Shaped(src, h, w) && Shaped(dst, h, w) && FoldedBest(src, dst, h, w, best, seen)
    ensures var channelDiff := Combine(src, Roll(dst, h, w, o.0, o.1), h, w, Difference);
            var better := if best.None? then channelDiff else Combine(best.value, channelDiff, h, w, Min);
            FoldedBest(src, dst, h, w, Some(better), seen + [o])
  {
    hide Difference, BestOver, Min, Wrap;
    var channelDiff := Combine(src, Roll(dst, h, w, o.0, o.1), h, w, Difference);
    forall y, x | 0 <= y < h && 0 <= x < w
      ensures channelDiff[y][x] == Difference(src[y][x], At(dst, h, w, y, x, o))
      ensures BestOver(src[y][x], dst, h, w, y, x, seen + [o])
              == if seen == [] then channelDiff[y][x]
                 else Min(BestOver(src[y][x], dst, h, w, y, x, seen), channelDiff[y][x])
    {
      BestMore(src[y][x], dst, h, w, y, x, seen, o);
    }
  }

  /** `seen` holds the window's offsets that come before (dy, dx), row by row. */
  ghost predicate Swept(seen: seq<Offset>, radius: nat, dy: int, dx: int) {
    forall o: Offset :: o in seen <==> InWindow(o, radius) && (o.0 < dy || (o.0 == dy && o.1 < dx))
  }

  lemma SweptNothing(radius: nat)
    ensures var start := 0 - (radius as int); Swept([], radius, start, start)
  {
  }

  lemma WithinRadius(radius: nat, dy: int, dx: int)
    requires -dy <= radius && dy <= radius && -dx <= radius && dx <= radius
    ensures InWindow((dy, dx), radius)
  {
  }

  lemma SweptStep(seen: seq<Offset>, radius: nat, dy: int, dx: int)
    requires Swept(seen, radius, dy, dx) && InWindow((dy, dx), radius)
    ensures Swept(seen + [(dy, dx)], radius, dy, dx + 1)
  {
  }

  lemma NextRow(seen: seq<Offset>, radius: nat, dy: int)
    requires Swept(seen, radius, dy, radius + 1)
    ensures Swept(seen, radius, dy + 1, 0 - (radius as int))
  {
  }

  lemma SweptAll(seen: seq<Offset>, radius: nat)
    requires Swept(seen, radius, radius + 1, 0 - (radius as int))
    ensures Covers(seen, radius)
  {
    assert (0, 0) in seen;
  }

  function Sum(s: seq<int>): int { if s == [] then 0 else s[0] + Sum(s[1..]) }

  function One(b: bool): int { if b then 1 else 0 }

  function RowCount(row: seq<bool>): int { Sum(seq(|row|, x requires 0 <= x < |row| => One(row[x]))) }

  function RowCounts(mask: Plane<bool>): seq<int> { seq(|mask|, y requires 0 <= y < |mask| => RowCount(mask[y])) }

  /** `np.count_nonzero`. */
  function CountTrue(mask: Plane<bool>): int { Sum(RowCounts(mask)) }

  ghost function SetBelow(row: seq<bool>, n: nat): set<int> { set x | 0 <= x < n && x < |row| && row[x] }

  lemma {:induction false} SumOfOnes(row: seq<bool>, n: nat)
    requires n <= |row|
    ensures Sum(seq(|row|, x requires 0 <= x < |row| => One(row[x]))[..n]) == |SetBelow(row, n)|
  {
    var ones := seq(|row|, x requires 0 <= x < |row| => One(row[x]));
    if n == 0 {
      assert ones[..0] == [] && SetBelow(row, 0) == {};
    } else {
      SumOfOnes(row, n - 1);
      SumConcat(ones[..n - 1], [ones[n - 1]]);
      assert Sum([ones[n - 1]]) == ones[n - 1];
      assert ones[..n] == ones[..n - 1] + [ones[n - 1]];
      OneMoreBelow(row, n);
    }
  }

  ghost function Along(y: int, xs: set<int>): set<(int, int)> { set x | x in xs :: (y, x) }

  lemma {:induction false} AlongSize(y: int, row: seq<bool>, n: nat)
    requires n <= |row|
    ensures |Along(y, SetBelow(row, n))| == |SetBelow(row, n)|
  {
    if n == 0 {
      assert Along(y, SetBelow(row, 0)) == {} && SetBelow(row, 0) == {};
    } else {
      hide SetBelow, Along;
      AlongSize(y, row, n - 1);
      OneMoreBelow(row, n);
      OneMoreAlong(y, SetBelow(row, n - 1), n - 1);
    }
  }

  lemma OneMoreBelow(row: seq<bool>, n: nat)
    requires 0 < n <= |row|
    ensures SetBelow(row, n) == (if row[n - 1] then SetBelow(row, n - 1) + {n - 1} else SetBelow(row, n - 1))
    ensures n - 1 !in SetBelow(row, n - 1)
  {
  }

  lemma OneMoreAlong(y: int, xs: set<int>, x: int)
    requires x !in xs
    ensures |Along(y, xs + {x})| == |Along(y, xs)| + 1
  {
    assert Along(y, xs + {x}) == Along(y, xs) + {(y, x)};
  }

  /** The places of the set elements in the first `n` rows. */
  ghost function Places(mask: Plane<bool>, n: nat): set<(int, int)>
    requires n <= |mask|
  {
    set y, x | 0 <= y < n && 0 <= x < |mask[y]| && mask[y][x] :: (y, x)
  }

  lemma {:induction false} CountOfRows(mask: Plane<bool>, n: nat)
    requires n <= |mask|
    ensures Sum(RowCounts(mask)[..n]) == |Places(mask, n)|
  {
    var counts := RowCounts(mask);
    if n == 0 {
      assert counts[..0] == [] && Places(mask, 0) == {};
    } else {
      var row := mask[n - 1];
      CountOfRows(mask, n - 1);
      SumConcat(counts[..n - 1], [counts[n - 1]]);
      assert counts[..n] == counts[..n - 1] + [counts[n - 1]];
      RowCountIs(row);
      AlongSize(n - 1, row, |row|);
      LastRowPlaces(mask, n);
      assert Sum([counts[n - 1]]) == counts[n - 1];
    }
  }

  lemma LastRowPlaces(mask: Plane<bool>, n: nat)
    requires 0 < n <= |mask|
    ensures |Places(mask, n)| == |Places(mask, n - 1)| + |Along(n - 1, SetBelow(mask[n - 1], |mask[n - 1]|))|
  {
    var last := Along(n - 1, SetBelow(mask[n - 1], |mask[n - 1]|));
    assert Places(mask, n) == Places(mask, n - 1) + last;
    assert Places(mask, n - 1) * last == {};
  }

  lemma RowCountIs(row: seq<bool>)
    ensures RowCount(row) == |SetBelow(row, |row|)|
  {
    var ones := seq(|row|, x requires 0 <= x < |row| => One(row[x]));
    SumOfOnes(row, |row|);
    assert ones[..|row|] == ones;
  }

  /** The count is the number of places that are set. */
  lemma CountTrueIsSize(mask: Plane<bool>)
    ensures CountTrue(mask) == |set y, x | 0 <= y < |mask| && 0 <= x < |mask[y]| && mask[y][x] :: (y, x)|
  {
    CountOfRows(mask, |mask|);
    assert RowCounts(mask)[..|mask|] == RowCounts(mask);
    assert Places(mask, |mask|) == set y, x | 0 <= y < |mask| && 0 <= x < |mask[y]| && mask[y][x] :: (y, x);
  }

  datatype Image = Image(h: nat, w: nat, px: Plane<Pixel>)

  ghost predicate WellFormed(image: Image) { Shaped(image.px, image.h, image.w) }

  const BLACK := Pixel(0, 0, 0)

  /** The image pasted into the corner of a black canvas. */
  function Padded(image: Image, h: nat, w: nat): (r: Plane<Pixel>)
    requires WellFormed(image)
    ensures Shaped(r, h, w)
    ensures forall y, x :: 0 <= y < h && 0 <= x < w ==>
            r[y][x] == if y < image.h && x < image.w then image.px[y][x] else BLACK
  {
    seq(h, y requires 0 <= y < h && WellFormed(image) =>
      seq(w, x requires 0 <= x < w && 0 <= y < h && WellFormed(image) =>
        if y < image.h && x < image.w then image.px[y][x] else BLACK))
  }

  /** Off one of two images of different size the other is compared with black: it differs by more than `t`
      exactly when some channel of its own lies further than that from 0; and off both nothing differs. */
  lemma OffTheImage(a: Image, b: Image, h: nat, w: nat, y: nat, x: nat, t: nat)
    requires WellFormed(a) && WellFormed(b) && y < h && x < w && !(y < b.h && x < b.w)
    ensures var d := Difference(Padded(a, h, w)[y][x], Padded(b, h, w)[y][x]);
            if y < a.h && x < a.w then
              var p := a.px[y][x];
              d > t <==> p.r > t || -p.r > t || p.g > t || -p.g > t || p.b > t || -p.b > t
            else d == 0
  {
    DifferenceExceedsIff(Padded(a, h, w)[y][x], Padded(b, h, w)[y][x], t);
  }

  /** The pixels that count as changed between two images of one size. */
  ghost function ChangedMask(a: Plane<Pixel>, b: Plane<Pixel>, h: nat, w: nat): (r: Plane<bool>)
    requires Shaped(a, h, w) && Shaped(b, h, w)
    ensures Shaped(r, h, w)
    ensures forall y, x :: 0 <= y < h && 0 <= x < w ==> (r[y][x] <==> Changed(a, b, h, w, y, x))
  {
    seq(h, y requires 0 <= y < h && Shaped(a, h, w) && Shaped(b, h, w) =>
      seq(w, x requires 0 <= x < w && 0 <= y < h && Shaped(a, h, w) && Shaped(b, h, w) => Changed(a, b, h, w, y, x)))
  }

  lemma SamePlane<T>(p: Plane<T>, q: Plane<T>, h: nat, w: nat)
    requires Shaped(p, h, w) && Shaped(q, h, w) && forall y, x :: 0 <= y < h && 0 <= x < w ==> p[y][x] == q[y][x]
    ensures p == q
  {
    forall y | 0 <= y < h ensures p[y] == q[y] {
    }
  }

  lemma PaddedToOwnSize(image: Image)
    requires WellFormed(image)
    ensures Padded(image, image.h, image.w) == image.px
  {
    SamePlane(Padded(image, image.h, image.w), image.px, image.h, image.w);
  }

  predicate Or(a: bool, b: bool) { a || b }

  /** `_pixel_diff_stats`, without the overlay picture. */
  method PixelDiffStats(baseline: Image, current: Image)
    returns (changed: int, total: int, ratio: real, sizeMismatch: bool)
    requires WellFormed(baseline) && WellFormed(current)
    ensures var h, w := Max(baseline.h, current.h), Max(baseline.w, current.w);
            && changed == CountTrue(ChangedMask(Padded(baseline, h, w), Padded(current, h, w), h, w))
            && total == h * w
            && ratio == if total == 0 then 0.0 else changed as real / total as real
    ensures sizeMismatch <==> baseline.h != current.h || baseline.w != current.w
  {
    hide Changed, CountTrue, Mismatch, Shaped;
    sizeMismatch := baseline.w != current.w || baseline.h != current.h;
    var h, w := baseline.h, baseline.w;
    var baselineArr, currentArr := baseline.px, current.px;
    PaddedToOwnSize(baseline);
    PaddedToOwnSize(current);
    if sizeMismatch {
      h, w := Max(baseline.h, current.h), Max(baseline.w, current.w);
      baselineArr, currentArr := Padded(baseline, h, w), Padded(current, h, w);
    }
    var forward := DirectionalMismatch(currentArr, baselineArr, h, w, RADIUS);
    var backward := DirectionalMismatch(baselineArr, currentArr, h, w, RADIUS);
    var mask := Combine(forward, backward, h, w, Or);
    MaskIsChanged(mask, forward, backward, baselineArr, currentArr, h, w);
    total := h * w;
    changed := CountTrue(mask);
    ratio := if total != 0 then changed as real / total as real else 0.0;
  }

  lemma MaskIsChanged(mask: Plane<bool>, forward: Plane<bool>, backward: Plane<bool>, a: Plane<Pixel>,
      b: Plane<Pixel>, h: nat, w: nat)
    requires Shaped(a, h, w) && Shaped(b, h, w) && Shaped(forward, h, w) && Shaped(backward, h, w)
    requires forall y, x :: 0 <= y < h && 0 <= x < w ==> (forward[y][x] <==> Mismatch(b, a, h, w, y, x, RADIUS))
    requires forall y, x :: 0 <= y < h && 0 <= x < w ==> (backward[y][x] <==> Mismatch(a, b, h, w, y, x, RADIUS))
    requires mask == Combine(forward, backward, h, w, Or)
    ensures mask == ChangedMask(a, b, h, w)
  {
    hide Mismatch;
    SamePlane(mask, ChangedMask(a, b, h, w), h, w);
  }

  // ---------------------------------------------------------------- symmetry

  /** Which image is the baseline does not matter. */
  lemma SwapKeepsMask(a: Plane<Pixel>, b: Plane<Pixel>, h: nat, w: nat)
    requires Shaped(a, h, w) && Shaped(b, h, w)
    ensures ChangedMask(a, b, h, w) == ChangedMask(b, a, h, w)
  {
    hide Mismatch;
    SamePlane(ChangedMask(a, b, h, w), ChangedMask(b, a, h, w), h, w);
  }

  lemma AtRolled(p: Plane<Pixel>, h: nat, w: nat, dy: int, dx: int, y: nat, x: nat, o: Offset)
    requires Shaped(p, h, w) && y < h && x < w
    ensures At(Roll(p, h, w, dy, dx), h, w, y, x, o) == At(p, h, w, Wrap(y - dy, h), Wrap(x - dx, w), o)
  {
    hide Wrap;
    WrapOfWrap(y - o.0, -dy, h);
    WrapOfWrap(y - dy, -o.0, h);
    WrapOfWrap(x - o.1, -dx, w);
    WrapOfWrap(x - dx, -o.1, w);
  }

  lemma EdgyRolled(p: Plane<Pixel>, h: nat, w: nat, dy: int, dx: int, y: nat, x: nat, radius: nat)
    requires Shaped(p, h, w) && y < h && x < w
    ensures Edgy(Roll(p, h, w, dy, dx), h, w, y, x, radius) <==> Edgy(p, h, w, Wrap(y - dy, h), Wrap(x - dx, w), radius)
  {
    hide At, Roll, Wrap, InWindow, Channel, Shaped;
    forall o: Offset
      ensures At(Roll(p, h, w, dy, dx), h, w, y, x, o) == At(p, h, w, Wrap(y - dy, h), Wrap(x - dx, w), o)
    {
      AtRolled(p, h, w, dy, dx, y, x, o);
    }
    if Edgy(Roll(p, h, w, dy, dx), h, w, y, x, radius) {
      var c :| 0 <= c < 3 && ChannelGap(Roll(p, h, w, dy, dx), h, w, y, x, radius, c);
      assert ChannelGap(p, h, w, Wrap(y - dy, h), Wrap(x - dx, w), radius, c);
    }
    if Edgy(p, h, w, Wrap(y - dy, h), Wrap(x - dx, w), radius) {
      var c :| 0 <= c < 3 && ChannelGap(p, h, w, Wrap(y - dy, h), Wrap(x - dx, w), radius, c);
      assert ChannelGap(Roll(p, h, w, dy, dx), h, w, y, x, radius, c);
    }
  }

  lemma CounterpartRolled(s: Pixel, p: Plane<Pixel>, h: nat, w: nat, dy: int, dx: int, y: nat, x: nat, radius: nat)
    requires Shaped(p, h, w) && y < h && x < w
    ensures HasCounterpart(s, Roll(p, h, w, dy, dx), h, w, y, x, radius)
            <==> HasCounterpart(s, p, h, w, Wrap(y - dy, h), Wrap(x - dx, w), radius)
  {
    hide At, Roll, Wrap, InWindow, Difference, Shaped;
    forall o: Offset
      ensures At(Roll(p, h, w, dy, dx), h, w, y, x, o) == At(p, h, w, Wrap(y - dy, h), Wrap(x - dx, w), o)
    {
      AtRolled(p, h, w, dy, dx, y, x, o);
    }
  }

  lemma MismatchRolled(a: Plane<Pixel>, b: Plane<Pixel>, h: nat, w: nat, dy: int, dx: int, y: nat, x: nat, radius: nat)
    requires Shaped(a, h, w) && Shaped(b, h, w) && y < h && x < w
    ensures Mismatch(Roll(a, h, w, dy, dx), Roll(b, h, w, dy, dx), h, w, y, x, radius)
            <==> Mismatch(a, b, h, w, Wrap(y - dy, h), Wrap(x - dx, w), radius)
  {
    hide Wrap, Edgy, HasCounterpart, Difference;
    EdgyRolled(a, h, w, dy, dx, y, x, radius);
    EdgyRolled(b, h, w, dy, dx, y, x, radius);
    CounterpartRolled(a[Wrap(y - dy, h)][Wrap(x - dx, w)], b, h, w, dy, dx, y, x, radius);
  }

  lemma SumConcat(s: seq<int>, t: seq<int>)
    ensures Sum(s + t) == Sum(s) + Sum(t)
  {
    if s == [] {
      assert s + t == t;
    } else {
      assert (s + t)[1..] == s[1..] + t;
      SumConcat(s[1..], t);
    }
  }

  /** Turning a sequence around does not change its sum. */
  lemma SumOfRolled(s: seq<int>, r: seq<int>, d: int)
    requires |r| == |s| && forall i :: 0 <= i < |s| ==> r[i] == s[Wrap(i - d, |s|)]
    ensures Sum(r) == Sum(s)
  {
    var n := |s|;
    if n == 0 { return; }
    var k := Wrap(-d, n);
    forall i | 0 <= i < n ensures r[i] == (s[k..] + s[..k])[i] {
      WrapOfWrap(-d, i, n);
      assert Wrap(i - d, n) == Wrap(k + i, n);
      WrapTurn(k + i - n, n);
    }
    assert r == s[k..] + s[..k];
    SumConcat(s[k..], s[..k]);
    SumConcat(s[..k], s[k..]);
    assert s == s[..k] + s[k..];
  }

  lemma CountOfRolled(mask: Plane<bool>, h: nat, w: nat, dy: int, dx: int)
    requires Shaped(mask, h, w)
    ensures CountTrue(Roll(mask, h, w, dy, dx)) == CountTrue(mask)
  {
    hide Wrap, Sum;
    var rolled := Roll(mask, h, w, dy, dx);
    forall y | 0 <= y < h ensures RowCounts(rolled)[y] == RowCounts(mask)[Wrap(y - dy, h)] {
      var row, from := rolled[y], mask[Wrap(y - dy, h)];
      SumOfRolled(seq(|from|, x requires 0 <= x < |from| => One(from[x])),
                  seq(|row|, x requires 0 <= x < |row| => One(row[x])), dx);
    }
    SumOfRolled(RowCounts(mask), RowCounts(rolled), dy);
  }

  /** Shifting both images around the borders shifts the mask with them, and so keeps the count. */
  lemma ShiftKeepsCount(a: Plane<Pixel>, b: Plane<Pixel>, h: nat, w: nat, dy: int, dx: int)
    requires Shaped(a, h, w) && Shaped(b, h, w)
    ensures ChangedMask(Roll(a, h, w, dy, dx), Roll(b, h, w, dy, dx), h, w)
            == Roll(ChangedMask(a, b, h, w), h, w, dy, dx)
    ensures CountTrue(ChangedMask(Roll(a, h, w, dy, dx), Roll(b, h, w, dy, dx), h, w))
            == CountTrue(ChangedMask(a, b, h, w))
  {
    hide Wrap, Mismatch, CountTrue;
    var ra, rb := Roll(a, h, w, dy, dx), Roll(b, h, w, dy, dx);
    var mask := ChangedMask(a, b, h, w);
    forall y, x | 0 <= y < h && 0 <= x < w ensures ChangedMask(ra, rb, h, w)[y][x] == Roll(mask, h, w, dy, dx)[y][x] {
      MismatchRolled(a, b, h, w, dy, dx, y, x, RADIUS);
      MismatchRolled(b, a, h, w, dy, dx, y, x, RADIUS);
    }
    SamePlane(ChangedMask(ra, rb, h, w), Roll(mask, h, w, dy, dx), h, w);
    CountOfRolled(mask, h, w, dy, dx);
  }

  // ---------------------------------------------------------------- the two tiers

  lemma ExactIsCounterpart(s: Pixel, p: Plane<Pixel>, h: nat, w: nat, y: nat, x: nat)
    requires Shaped(p, h, w) && y < h && x < w && Difference(s, p[y][x]) <= EDGE_TOLERANCE
    ensures HasCounterpart(s, p, h, w, y, x, RADIUS)
  {
    hide Difference;
    assert At(p, h, w, y, x, (0, 0)) == p[y][x];
    assert InWindow((0, 0), RADIUS);
  }

  /** A pixel is changed exactly when it differs by more than the strict tolerance and is not an
      edge that finds its counterpart in both directions. */
  lemma ChangedIff(a: Plane<Pixel>, b: Plane<Pixel>, h: nat, w: nat, y: nat, x: nat)
    requires Shaped(a, h, w) && Shaped(b, h, w) && y < h && x < w
    ensures Changed(a, b, h, w, y, x)
            <==> Difference(a[y][x], b[y][x]) > STRICT_TOLERANCE
                 && !((Edgy(a, h, w, y, x, RADIUS) || Edgy(b, h, w, y, x, RADIUS))
                      && HasCounterpart(a[y][x], b, h, w, y, x, RADIUS)
                      && HasCounterpart(b[y][x], a, h, w, y, x, RADIUS))
  {
    hide Edgy, HasCounterpart;
    assert Difference(a[y][x], b[y][x]) == Difference(b[y][x], a[y][x]);
  }

  /** Where both images are flat, only the strict tolerance counts. */
  lemma FlatChangedIff(a: Plane<Pixel>, b: Plane<Pixel>, h: nat, w: nat, y: nat, x: nat)
    requires Shaped(a, h, w) && Shaped(b, h, w) && y < h && x < w
    requires !Edgy(a, h, w, y, x, RADIUS) && !Edgy(b, h, w, y, x, RADIUS)
    ensures Changed(a, b, h, w, y, x) <==> Difference(a[y][x], b[y][x]) > STRICT_TOLERANCE
  {
    hide Edgy, HasCounterpart, Difference;
    ChangedIff(a, b, h, w, y, x);
  }

  /** A pixel of either image without a counterpart in the other is always counted: what was added
      and what was removed both show. */
  lemma NoCounterpartIsChanged(a: Plane<Pixel>, b: Plane<Pixel>, h: nat, w: nat, y: nat, x: nat)
    requires Shaped(a, h, w) && Shaped(b, h, w) && y < h && x < w
    requires !HasCounterpart(a[y][x], b, h, w, y, x, RADIUS) || !HasCounterpart(b[y][x], a, h, w, y, x, RADIUS)
    ensures Changed(a, b, h, w, y, x)
  {
    hide Edgy, HasCounterpart;
    assert Difference(a[y][x], b[y][x]) == Difference(b[y][x], a[y][x]);
    if Difference(a[y][x], b[y][x]) <= EDGE_TOLERANCE {
      ExactIsCounterpart(a[y][x], b, h, w, y, x);
      ExactIsCounterpart(b[y][x], a, h, w, y, x);
    }
  }
}
