/** What a tile of a split op computes (pipeline/apply_split_hint.py).

    Splitting cuts an output axis: features of a linear op, channels of a convolution. The int8
    arithmetic follows the exporter's simulator (pipeline/extract_graph.py), 32-bit wrap-around
    included; batch norm and activation are an arbitrary function of a channel's parameters and
    one element. */
module Tiles {

  // ---------------------------------------------------------------- index arithmetic

  lemma MulMono(a: int, b: int, k: nat)
    requires a <= b
    ensures a * k <= b * k
  {
  }

  predicate Covers(w: nat, t: nat, c: nat) {
    t * w <= c < t * w + w
  }

  /** Tile `t` of width `w` covers the channels from `t * w`; together the tiles cover the axis. */
  lemma TilesPartition(channels: nat, tiles: nat, c: nat)
    requires tiles >= 1 && channels % tiles == 0 && c < channels
    ensures channels / tiles > 0 && c / (channels / tiles) < tiles && channels / tiles * tiles == channels
    ensures forall t: nat :: Covers(channels / tiles, t, c) <==> t == c / (channels / tiles)
  {
    var w := channels / tiles;
    assert channels == w * tiles;
    assert 0 * tiles == 0;
    var q := c / w;
    assert q * w <= c < q * w + w;
    if q >= tiles {
      MulMono(tiles, q, w);
    }
    forall t: nat
      ensures Covers(w, t, c) <==> t == q
    {
      if t < q {
        MulMono(t + 1, q, w);
      } else if t > q {
        MulMono(q + 1, t, w);
      }
    }
  }

  /** Where element (o, c, r) of a tensor of `channels` channels of `inner` elements lies. */
  function Position(channels: nat, inner: nat, o: nat, c: nat, r: nat): nat {
    (o * channels + c) * inner + r
  }

  /** Where it lies when the tiles are stored one after the other. */
  function BackToBack(outer: nat, width: nat, inner: nat, o: nat, t: nat, j: nat, r: nat): nat {
    t * (outer * width * inner) + Position(width, inner, o, j, r)
  }

  ghost predicate StoredAlike(outer: nat, tiles: nat, width: nat, inner: nat) {
    forall o: nat, t: nat, j: nat, r: nat :: o < outer && t < tiles && j < width && r < inner ==>
      BackToBack(outer, width, inner, o, t, j, r) == Position(tiles * width, inner, o, t * width + j, r)
  }

  lemma StoredAlikeWhenOne(tiles: nat, width: nat, inner: nat, t: nat, j: nat, r: nat)
    ensures BackToBack(1, width, inner, 0, t, j, r) == Position(tiles * width, inner, 0, t * width + j, r)
  {
    assert t * (width * inner) + j * inner == (t * width + j) * inner;
  }

  /** Tiles stored back to back are the unsplit tensor exactly when the outer dimension is 1. */
  lemma StoredAlikeIff(outer: nat, tiles: nat, width: nat, inner: nat)
    requires outer >= 1 && tiles >= 2 && width >= 1 && inner >= 1
    ensures StoredAlike(outer, tiles, width, inner) <==> outer == 1
  {
    if outer == 1 {
      forall o: nat, t: nat, j: nat, r: nat | o < outer && t < tiles && j < width && r < inner
        ensures BackToBack(outer, width, inner, o, t, j, r) == Position(tiles * width, inner, o, t * width + j, r)
      {
        StoredAlikeWhenOne(tiles, width, inner, t, j, r);
      }
    } else {
      var row := width * inner;
      assert row >= 1 by { MulMono(1, width, inner); }
      assert BackToBack(outer, width, inner, 1, 0, 0, 0) == row;
      assert Position(tiles * width, inner, 1, 0 * width + 0, 0) == tiles * width * inner == tiles * row;
      MulMono(2, tiles, row);
    }
  }

  // ---------------------------------------------------------------- int8 arithmetic

  function Wrap32(x: int): int {
    (x + 0x8000_0000) % 0x1_0000_0000 - 0x8000_0000
  }

  function Pow2(n: nat): int { if n == 0 then 1 else 2 * Pow2(n - 1) }

  lemma Pow2Positive(n: nat)
    ensures Pow2(n) >= 1
  {
  }

  function ShiftRight(x: int, n: nat): int {
    Pow2Positive(n);
    x / Pow2(n)
  }

  datatype Quant = Quant(inputOffset: int, filterOffset: int, outputOffset: int, multiplier: int, shift: int, low: int, high: int)

  function Requantize(acc: int, q: Quant): int {
    var prod := Wrap32(ShiftRight(acc * q.multiplier + 0x4000_0000, 31));
    if q.shift > 0 then ShiftRight(Wrap32(prod + Pow2(q.shift - 1)), q.shift) else Wrap32(prod * Pow2(-q.shift))
  }

  function Clip(x: int, low: int, high: int): int {
    if x < low then low else if x > high then high else x
  }

  function Finish(acc: int, q: Quant): int {
    Clip(Wrap32(Requantize(acc, q) + q.outputOffset), q.low, q.high)
  }

  function At(s: seq<int>, i: int): int {
    if 0 <= i < |s| then s[i] else 0
  }

  /** Element `i` of the row of weights starting at `row`. */
  function Weight(w: seq<int>, row: int, i: int): int { At(w, row + i) }

  // ---------------------------------------------------------------- linear

  datatype LinearShape = LinearShape(m: nat, k: nat, n: nat)

  function Dot(x: seq<int>, w: seq<int>, q: Quant, xRow: int, wRow: int, start: int, k: nat): int {
    if k == 0 then start
    else Wrap32(Dot(x, w, q, xRow, wRow, start, k - 1) + (At(x, xRow + k - 1) + q.inputOffset) * (Weight(w, wRow, k - 1) + q.filterOffset))
  }

  /** Element (row, feature) of an int8 linear layer with weights [N, K]. */
  function LinearAt(x: seq<int>, w: seq<int>, b: seq<int>, sh: LinearShape, q: Quant, row: nat, feature: nat): int {
    Finish(Dot(x, w, q, row * sh.k, feature * sh.k, At(b, feature), sh.k), q)
  }

  lemma {:induction false} DotShifts(x: seq<int>, w: seq<int>, v: seq<int>, q: Quant, xRow: int, wRow: int, vRow: int, start: int, k: nat)
    requires forall i :: 0 <= i < k ==> Weight(w, wRow, i) == Weight(v, vRow, i)
    ensures Dot(x, w, q, xRow, wRow, start, k) == Dot(x, v, q, xRow, vRow, start, k)
  {
    if k > 0 {
      DotShifts(x, w, v, q, xRow, wRow, vRow, start, k - 1);
    }
  }

  /** Rows `t * width` onwards of a matrix with rows of `k` elements. */
  function RowSlice(w: seq<int>, k: nat, width: nat, t: nat): (s: seq<int>)
    requires (t * width + width) * k <= |w|
    ensures |s| == width * k
  {
    MulMono(t * width, t * width + width, k);
    assert (t * width + width) * k - t * width * k == width * k;
    w[t * width * k..(t * width + width) * k]
  }

  lemma RowSliceAt(w: seq<int>, k: nat, width: nat, t: nat, j: nat, i: nat)
    requires (t * width + width) * k <= |w| && j < width && i < k
    ensures At(RowSlice(w, k, width, t), j * k + i) == At(w, (t * width + j) * k + i)
  {
    MulMono(j + 1, width, k);
    assert j * k + i < width * k;
    assert t * width * k + (j * k + i) == (t * width + j) * k + i;
    MulMono(t * width + j + 1, t * width + width, k);
  }

  /** A linear tile computes the features it stands for. */
  lemma LinearTile(x: seq<int>, w: seq<int>, b: seq<int>, sh: LinearShape, q: Quant, width: nat, t: nat, row: nat, j: nat)
    requires |w| == sh.n * sh.k && |b| == sh.n && t * width + width <= sh.n && j < width
    ensures (t * width + width) * sh.k <= |w| && (t * width + width) * 1 <= |b|
    ensures LinearAt(x, RowSlice(w, sh.k, width, t), RowSlice(b, 1, width, t), sh.(n := width), q, row, j)
         == LinearAt(x, w, b, sh, q, row, t * width + j)
  {
    hide Finish, Dot, RowSlice, At;
    MulMono(t * width + width, sh.n, sh.k);
    var v, c := RowSlice(w, sh.k, width, t), RowSlice(b, 1, width, t);
    RowSliceAt(b, 1, width, t, j, 0);
    assert At(c, j) == At(b, t * width + j);
    forall i | 0 <= i < sh.k
      ensures Weight(v, j * sh.k, i) == Weight(w, (t * width + j) * sh.k, i)
    {
      RowSliceAt(w, sh.k, width, t, j, i);
    }
    DotShifts(x, v, w, q, row * sh.k, j * sh.k, (t * width + j) * sh.k, At(b, t * width + j), sh.k);
  }

  // ---------------------------------------------------------------- convolution

  datatype ConvShape = ConvShape(n: nat, ic: nat, ih: nat, iw: nat, oc: nat, oh: nat, ow: nat, kh: nat, kw: nat,
                                 sh: nat, sw: nat, ph: nat, pw: nat)

  function Taps(s: ConvShape): nat { s.ic * s.kh * s.kw }

  /** The padded, offset input under a tap of the window. */
  function Under(x: seq<int>, s: ConvShape, q: Quant, n: nat, oh: nat, ow: nat, ic: int, kh: int, kw: int): int {
    var ih, iw := oh * s.sh - s.ph + kh, ow * s.sw - s.pw + kw;
    q.inputOffset + if 0 <= ih < s.ih && 0 <= iw < s.iw then At(x, ((n * s.ic + ic) * s.ih + ih) * s.iw + iw) else 0
  }

  /** Bias plus the first taps, in the order channel, row, column; weights are [OC, IC, KH, KW]. */
  function ConvAcc(x: seq<int>, w: seq<int>, s: ConvShape, q: Quant, n: nat, oh: nat, ow: nat, wRow: int, start: int, taps: nat): int
    requires s.kh > 0 && s.kw > 0
  {
    if taps == 0 then Wrap32(start)
    else
      var i := taps - 1;
      Wrap32(ConvAcc(x, w, s, q, n, oh, ow, wRow, start, i)
        + Under(x, s, q, n, oh, ow, i / s.kw / s.kh, i / s.kw % s.kh, i % s.kw) * (Weight(w, wRow, i) + q.filterOffset))
  }

  /** Element (n, oc, oh, ow) of an int8 convolution. */
  function ConvAt(x: seq<int>, w: seq<int>, b: seq<int>, s: ConvShape, q: Quant, n: nat, oc: nat, oh: nat, ow: nat): int
    requires s.kh > 0 && s.kw > 0
  {
    Finish(ConvAcc(x, w, s, q, n, oh, ow, oc * Taps(s), At(b, oc), Taps(s)), q)
  }

  lemma UnderIgnoresChannels(x: seq<int>, s: ConvShape, width: nat, q: Quant, n: nat, oh: nat, ow: nat, ic: int, kh: int, kw: int)
    ensures Under(x, s.(oc := width), q, n, oh, ow, ic, kh, kw) == Under(x, s, q, n, oh, ow, ic, kh, kw)
  {
  }

  lemma {:induction false} ConvAccShifts(x: seq<int>, w: seq<int>, v: seq<int>, s: ConvShape, width: nat, q: Quant,
                                         n: nat, oh: nat, ow: nat, wRow: int, vRow: int, start: int, taps: nat)
    requires s.kh > 0 && s.kw > 0
    requires forall i :: 0 <= i < taps ==> Weight(w, wRow, i) == Weight(v, vRow, i)
    ensures ConvAcc(x, w, s, q, n, oh, ow, wRow, start, taps) == ConvAcc(x, v, s.(oc := width), q, n, oh, ow, vRow, start, taps)
  {
    hide Wrap32, Under, Weight;
    if taps > 0 {
      var i := taps - 1;
      UnderIgnoresChannels(x, s, width, q, n, oh, ow, i / s.kw / s.kh, i / s.kw % s.kh, i % s.kw);
      ConvAccShifts(x, w, v, s, width, q, n, oh, ow, wRow, vRow, start, taps - 1);
    }
  }

  /** A convolution tile computes the channels it stands for. */
  lemma ConvTile(x: seq<int>, w: seq<int>, b: seq<int>, s: ConvShape, q: Quant, width: nat, t: nat, n: nat, j: nat, oh: nat, ow: nat)
    requires s.kh > 0 && s.kw > 0 && |w| == s.oc * Taps(s) && |b| == s.oc && t * width + width <= s.oc && j < width
    ensures (t * width + width) * Taps(s) <= |w| && (t * width + width) * 1 <= |b|
    ensures ConvAt(x, RowSlice(w, Taps(s), width, t), RowSlice(b, 1, width, t), s.(oc := width), q, n, j, oh, ow)
         == ConvAt(x, w, b, s, q, n, t * width + j, oh, ow)
  {
    hide Finish, ConvAcc, RowSlice, At;
    var k := Taps(s);
    assert Taps(s.(oc := width)) == k;
    hide Taps;
    MulMono(t * width + width, s.oc, k);
    var v, c := RowSlice(w, k, width, t), RowSlice(b, 1, width, t);
    RowSliceAt(b, 1, width, t, j, 0);
    assert At(c, j) == At(b, t * width + j);
    forall i | 0 <= i < k
      ensures Weight(w, (t * width + j) * k, i) == Weight(v, j * k, i)
    {
      RowSliceAt(w, k, width, t, j, i);
    }
    ConvAccShifts(x, w, v, s, width, q, n, oh, ow, (t * width + j) * k, j * k, At(b, t * width + j), k);
  }

  // ---------------------------------------------------------------- fused convolution

  /** What batch norm and activation make of an element, given the channel's scale and bias. */
  type Epilogue = (real, real, int) -> int

  function ParamAt(p: seq<real>, i: int): real {
    if 0 <= i < |p| then p[i] else 0.0
  }

  function FusedAt(x: seq<int>, w: seq<int>, b: seq<int>, scale: seq<real>, shift: seq<real>, s: ConvShape, q: Quant, f: Epilogue,
                   n: nat, oc: nat, oh: nat, ow: nat): int
    requires s.kh > 0 && s.kw > 0
  {
    f(ParamAt(scale, oc), ParamAt(shift, oc), ConvAt(x, w, b, s, q, n, oc, oh, ow))
  }

  /** A tile of a fused convolution runs the whole fused kernel on its slice of every parameter. */
  lemma FusedTile(x: seq<int>, w: seq<int>, b: seq<int>, scale: seq<real>, shift: seq<real>, s: ConvShape, q: Quant, f: Epilogue,
                  width: nat, t: nat, n: nat, j: nat, oh: nat, ow: nat)
    requires s.kh > 0 && s.kw > 0 && |w| == s.oc * Taps(s) && |b| == s.oc && |scale| == s.oc && |shift| == s.oc
    requires t * width + width <= s.oc && j < width
    ensures (t * width + width) * Taps(s) <= |w| && (t * width + width) * 1 <= |b|
    ensures FusedAt(x, RowSlice(w, Taps(s), width, t), RowSlice(b, 1, width, t),
                    scale[t * width..t * width + width], shift[t * width..t * width + width], s.(oc := width), q, f, n, j, oh, ow)
         == FusedAt(x, w, b, scale, shift, s, q, f, n, t * width + j, oh, ow)
  {
    hide ConvAt;
    ConvTile(x, w, b, s, q, width, t, n, j, oh, ow);
  }

  // ---------------------------------------------------------------- whole tensors

  /** A tensor of `outer * channels * inner` elements given element by element. */
  function Laid(outer: nat, channels: nat, inner: nat, at: (nat, nat, nat) -> int): (s: seq<int>)
    ensures |s| == outer * channels * inner
  {
    seq(outer * channels * inner, i requires 0 <= i < outer * channels * inner =>
      PositiveParts(outer, channels, inner, i);
      Cell(channels, inner, at, i))
  }

  function Cell(channels: nat, inner: nat, at: (nat, nat, nat) -> int, i: nat): int
    requires channels > 0 && inner > 0
  {
    at(i / inner / channels, i / inner % channels, i % inner)
  }

  lemma PositiveParts(outer: nat, channels: nat, inner: nat, i: nat)
    requires i < outer * channels * inner
    ensures channels > 0 && inner > 0 && outer > 0
  {
    assert 0 * channels == 0 && outer * 0 == 0 && 0 * inner == 0;
  }

  lemma DivMod(a: nat, k: nat, r: nat)
    requires r < k
    ensures (a * k + r) / k == a && (a * k + r) % k == r
  {
    var q := (a * k + r) / k;
    if q < a {
      MulMono(q + 1, a, k);
    } else if q > a {
      MulMono(a + 1, q, k);
    }
  }

  lemma LaidAt(outer: nat, channels: nat, inner: nat, at: (nat, nat, nat) -> int, o: nat, c: nat, r: nat)
    requires o < outer && c < channels && r < inner
    ensures Position(channels, inner, o, c, r) < outer * channels * inner
    ensures Laid(outer, channels, inner, at)[Position(channels, inner, o, c, r)] == at(o, c, r)
  {
    DivMod(o * channels + c, inner, r);
    DivMod(o, channels, c);
    MulMono(o + 1, outer, channels);
    assert (o + 1) * channels == o * channels + channels;
    MulMono(o * channels + c + 1, outer * channels, inner);
    assert (o * channels + c + 1) * inner == (o * channels + c) * inner + inner;
  }

  /** Joins tiles along the channel axis: channel `c` comes from tile `c / width`. */
  function JoinedAt(tiles: seq<seq<int>>, width: nat, inner: nat, o: nat, c: nat, r: nat): int
    requires width > 0
  {
    if c / width < |tiles| then At(tiles[c / width], Position(width, inner, o, c % width, r)) else 0
  }

  function Joined(tiles: seq<seq<int>>, width: nat, inner: nat): (nat, nat, nat) -> int
    requires width > 0
  {
    (o: nat, c: nat, r: nat) => JoinedAt(tiles, width, inner, o, c, r)
  }

  /** The tiles hold the elements of the channels they stand for. */
  ghost predicate HoldParts(outer: nat, tiles: nat, width: nat, inner: nat, whole: (nat, nat, nat) -> int, parts: seq<seq<int>>) {
    |parts| == tiles && forall t: nat, o: nat, j: nat, r: nat :: t < tiles && o < outer && j < width && r < inner ==>
      At(parts[t], Position(width, inner, o, j, r)) == whole(o, t * width + j, r)
  }

  /** If every tile computes the channels it stands for, joining the tiles along the channel axis
      gives the unsplit tensor. */
  lemma JoinIsWhole(outer: nat, tiles: nat, width: nat, inner: nat, whole: (nat, nat, nat) -> int, parts: seq<seq<int>>)
    requires tiles >= 1 && width >= 1 && HoldParts(outer, tiles, width, inner, whole, parts)
    ensures Laid(outer, tiles * width, inner, whole) == Laid(outer, tiles * width, inner, Joined(parts, width, inner))
  {
    hide *;
    var joined, channels := Joined(parts, width, inner), tiles * width;
    assert channels >= 1 by { MulMono(1, tiles, width); }
    forall i: nat | i < outer * channels * inner
      ensures inner > 0 && Cell(channels, inner, whole, i) == Cell(channels, inner, joined, i)
    {
      PositiveParts(outer, channels, inner, i);
      CellJoined(outer, tiles, width, inner, whole, parts, i);
    }
    LaidSame(outer, channels, inner, whole, joined);
  }

  lemma CellJoined(outer: nat, tiles: nat, width: nat, inner: nat, whole: (nat, nat, nat) -> int, parts: seq<seq<int>>, i: nat)
    requires tiles >= 1 && width >= 1 && inner >= 1 && tiles * width >= 1 && HoldParts(outer, tiles, width, inner, whole, parts)
    requires i < outer * (tiles * width) * inner
    ensures Cell(tiles * width, inner, whole, i) == Cell(tiles * width, inner, Joined(parts, width, inner), i)
  {
    hide *;
    var o, c, r := Coordinates(outer, tiles * width, inner, whole, Joined(parts, width, inner), i);
    JoinElement(outer, tiles, width, inner, whole, parts, o, c, r);
  }

  lemma Coordinates(outer: nat, channels: nat, inner: nat, f: (nat, nat, nat) -> int, g: (nat, nat, nat) -> int, i: nat)
    returns (o: nat, c: nat, r: nat)
    requires channels > 0 && inner > 0 && i < outer * channels * inner
    ensures o < outer && c < channels && r < inner
    ensures Cell(channels, inner, f, i) == f(o, c, r) && Cell(channels, inner, g, i) == g(o, c, r)
  {
    OuterFits(outer, channels, inner, i);
    o, c, r := i / inner / channels, i / inner % channels, i % inner;
    CellIs(channels, inner, f, i);
    CellIs(channels, inner, g, i);
    hide Cell;
  }

  lemma CellIs(channels: nat, inner: nat, at: (nat, nat, nat) -> int, i: nat)
    requires channels > 0 && inner > 0
    ensures i / inner >= 0 && i / inner / channels >= 0
    ensures Cell(channels, inner, at, i) == at(i / inner / channels, i / inner % channels, i % inner)
  {
  }

  lemma LaidSame(outer: nat, channels: nat, inner: nat, f: (nat, nat, nat) -> int, g: (nat, nat, nat) -> int)
    requires channels > 0
    requires forall i: nat :: i < outer * channels * inner ==> inner > 0 && Cell(channels, inner, f, i) == Cell(channels, inner, g, i)
    ensures Laid(outer, channels, inner, f) == Laid(outer, channels, inner, g)
  {
    hide Cell;
  }

  lemma OuterFits(outer: nat, channels: nat, inner: nat, i: nat)
    requires i < outer * channels * inner && channels > 0 && inner > 0
    ensures i / inner / channels < outer
  {
    if i / inner >= outer * channels {
      MulMono(outer * channels, i / inner, inner);
    }
    if i / inner / channels >= outer {
      MulMono(outer, i / inner / channels, channels);
    }
  }

  lemma JoinElement(outer: nat, tiles: nat, width: nat, inner: nat, whole: (nat, nat, nat) -> int, parts: seq<seq<int>>, o: nat, c: nat, r: nat)
    requires tiles >= 1 && width >= 1 && HoldParts(outer, tiles, width, inner, whole, parts)
    requires o < outer && c < tiles * width && r < inner
    ensures Joined(parts, width, inner)(o, c, r) == whole(o, c, r)
  {
    var t, j := c / width, c % width;
    if t >= tiles {
      MulMono(tiles, t, width);
    }
    assert c == t * width + j;
    assert At(parts[t], Position(width, inner, o, j, r)) == whole(o, t * width + j, r);
  }

  function LinearCells(x: seq<int>, w: seq<int>, b: seq<int>, sh: LinearShape, q: Quant): (nat, nat, nat) -> int {
    (row: nat, feature: nat, r: nat) => LinearAt(x, w, b, sh, q, row, feature)
  }

  function ConvCells(x: seq<int>, w: seq<int>, b: seq<int>, s: ConvShape, q: Quant): (nat, nat, nat) -> int
    requires s.kh > 0 && s.kw > 0 && s.ow > 0
  {
    (n: nat, oc: nat, r: nat) => ConvAt(x, w, b, s, q, n, oc, r / s.ow, r % s.ow)
  }

  function FusedCells(x: seq<int>, w: seq<int>, b: seq<int>, scale: seq<real>, shift: seq<real>, s: ConvShape, q: Quant, f: Epilogue): (nat, nat, nat) -> int
    requires s.kh > 0 && s.kw > 0 && s.ow > 0
  {
    (n: nat, oc: nat, r: nat) => FusedAt(x, w, b, scale, shift, s, q, f, n, oc, r / s.ow, r % s.ow)
  }

  function LinearOut(x: seq<int>, w: seq<int>, b: seq<int>, sh: LinearShape, q: Quant): seq<int> {
    Laid(sh.m, sh.n, 1, LinearCells(x, w, b, sh, q))
  }

  function ConvOut(x: seq<int>, w: seq<int>, b: seq<int>, s: ConvShape, q: Quant): seq<int>
    requires s.kh > 0 && s.kw > 0 && s.ow > 0
  {
    Laid(s.n, s.oc, s.oh * s.ow, ConvCells(x, w, b, s, q))
  }

  function FusedOut(x: seq<int>, w: seq<int>, b: seq<int>, scale: seq<real>, shift: seq<real>, s: ConvShape, q: Quant, f: Epilogue): seq<int>
    requires s.kh > 0 && s.kw > 0 && s.ow > 0
  {
    Laid(s.n, s.oc, s.oh * s.ow, FusedCells(x, w, b, scale, shift, s, q, f))
  }

  lemma SliceFits(channels: nat, tiles: nat, width: nat, t: nat, k: nat)
    requires width * tiles == channels && t < tiles
    ensures t * width + width <= channels && (t * width + width) * k <= channels * k
  {
    MulMono(t + 1, tiles, width);
    MulMono(t * width + width, channels, k);
  }

  /** The outputs of the tiles of a linear layer, each run on its slice of weights and bias. */
  function LinearTiles(x: seq<int>, w: seq<int>, b: seq<int>, sh: LinearShape, q: Quant, tiles: nat, width: nat): seq<seq<int>>
    requires |w| == sh.n * sh.k && |b| == sh.n && width * tiles == sh.n
  {
    seq(tiles, t requires 0 <= t < tiles =>
      SliceFits(sh.n, tiles, width, t, sh.k);
      SliceFits(sh.n, tiles, width, t, 1);
      LinearOut(x, RowSlice(w, sh.k, width, t), RowSlice(b, 1, width, t), sh.(n := width), q))
  }

  function ConvTiles(x: seq<int>, w: seq<int>, b: seq<int>, s: ConvShape, q: Quant, tiles: nat, width: nat): seq<seq<int>>
    requires s.kh > 0 && s.kw > 0 && s.ow > 0 && |w| == s.oc * Taps(s) && |b| == s.oc && width * tiles == s.oc
  {
    seq(tiles, t requires 0 <= t < tiles =>
      SliceFits(s.oc, tiles, width, t, Taps(s));
      SliceFits(s.oc, tiles, width, t, 1);
      ConvOut(x, RowSlice(w, Taps(s), width, t), RowSlice(b, 1, width, t), s.(oc := width), q))
  }

  function FusedTiles(x: seq<int>, w: seq<int>, b: seq<int>, scale: seq<real>, shift: seq<real>, s: ConvShape, q: Quant, f: Epilogue,
                      tiles: nat, width: nat): seq<seq<int>>
    requires s.kh > 0 && s.kw > 0 && s.ow > 0 && |w| == s.oc * Taps(s) && |b| == s.oc && width * tiles == s.oc
    requires |scale| == s.oc && |shift| == s.oc
  {
    seq(tiles, t requires 0 <= t < tiles =>
      SliceFits(s.oc, tiles, width, t, Taps(s));
      SliceFits(s.oc, tiles, width, t, 1);
      FusedOut(x, RowSlice(w, Taps(s), width, t), RowSlice(b, 1, width, t),
               scale[t * width..t * width + width], shift[t * width..t * width + width], s.(oc := width), q, f))
  }

  /** Splitting a linear layer along its features computes the same tensor. */
  lemma LinearSplit(x: seq<int>, w: seq<int>, b: seq<int>, sh: LinearShape, q: Quant, tiles: nat, width: nat)
    requires |w| == sh.n * sh.k && |b| == sh.n && width * tiles == sh.n && tiles >= 1 && width >= 1
    ensures LinearOut(x, w, b, sh, q) == Laid(sh.m, sh.n, 1, Joined(LinearTiles(x, w, b, sh, q, tiles, width), width, 1))
  {
    hide *;
    var parts, whole := LinearTiles(x, w, b, sh, q, tiles, width), LinearCells(x, w, b, sh, q);
    forall t: nat, row: nat, j: nat, r: nat | t < tiles && row < sh.m && j < width && r < 1
      ensures |parts| == tiles && At(parts[t], Position(width, 1, row, j, r)) == whole(row, t * width + j, r)
    {
      LinearPart(x, w, b, sh, q, tiles, width, t, row, j, r);
    }
    LinearPartsCount(x, w, b, sh, q, tiles, width);
    HoldsParts(sh.m, tiles, width, 1, whole, parts);
    JoinIsWhole(sh.m, tiles, width, 1, whole, parts);
    LinearWhole(x, w, b, sh, q);
  }

  lemma LinearWhole(x: seq<int>, w: seq<int>, b: seq<int>, sh: LinearShape, q: Quant)
    ensures LinearOut(x, w, b, sh, q) == Laid(sh.m, sh.n, 1, LinearCells(x, w, b, sh, q))
  {
  }

  lemma LinearPartsCount(x: seq<int>, w: seq<int>, b: seq<int>, sh: LinearShape, q: Quant, tiles: nat, width: nat)
    requires |w| == sh.n * sh.k && |b| == sh.n && width * tiles == sh.n
    ensures |LinearTiles(x, w, b, sh, q, tiles, width)| == tiles
  {
    hide RowSlice, LinearOut;
  }

  lemma LinearPart(x: seq<int>, w: seq<int>, b: seq<int>, sh: LinearShape, q: Quant, tiles: nat, width: nat, t: nat, row: nat, j: nat, r: nat)
    requires |w| == sh.n * sh.k && |b| == sh.n && width * tiles == sh.n
    requires t < tiles && row < sh.m && j < width && r < 1
    ensures |LinearTiles(x, w, b, sh, q, tiles, width)| == tiles
    ensures At(LinearTiles(x, w, b, sh, q, tiles, width)[t], Position(width, 1, row, j, r))
         == LinearCells(x, w, b, sh, q)(row, t * width + j, r)
  {
    hide RowSlice, Laid, LinearCells, At, Position;
    SliceFits(sh.n, tiles, width, t, sh.k);
    SliceFits(sh.n, tiles, width, t, 1);
    LinearCell(x, w, b, sh, q, width, t, row, j, r);
    LaidHolds(sh.m, width, 1, LinearCells(x, RowSlice(w, sh.k, width, t), RowSlice(b, 1, width, t), sh.(n := width), q), row, j, r);
  }

  lemma LinearCell(x: seq<int>, w: seq<int>, b: seq<int>, sh: LinearShape, q: Quant, width: nat, t: nat, row: nat, j: nat, r: nat)
    requires |w| == sh.n * sh.k && |b| == sh.n && t * width + width <= sh.n && j < width
    ensures (t * width + width) * sh.k <= |w| && (t * width + width) * 1 <= |b|
    ensures LinearCells(x, RowSlice(w, sh.k, width, t), RowSlice(b, 1, width, t), sh.(n := width), q)(row, j, r)
         == LinearCells(x, w, b, sh, q)(row, t * width + j, r)
  {
    hide LinearAt, RowSlice;
    LinearTile(x, w, b, sh, q, width, t, row, j);
  }

  lemma ConvCell(x: seq<int>, w: seq<int>, b: seq<int>, s: ConvShape, q: Quant, width: nat, t: nat, n: nat, j: nat, r: nat)
    requires s.kh > 0 && s.kw > 0 && s.ow > 0 && |w| == s.oc * Taps(s) && |b| == s.oc && t * width + width <= s.oc && j < width
    ensures (t * width + width) * Taps(s) <= |w| && (t * width + width) * 1 <= |b|
    ensures ConvCells(x, RowSlice(w, Taps(s), width, t), RowSlice(b, 1, width, t), s.(oc := width), q)(n, j, r)
         == ConvCells(x, w, b, s, q)(n, t * width + j, r)
  {
    hide ConvAt, RowSlice, Taps;
    ConvTile(x, w, b, s, q, width, t, n, j, r / s.ow, r % s.ow);
  }

  lemma FusedCell(x: seq<int>, w: seq<int>, b: seq<int>, scale: seq<real>, shift: seq<real>, s: ConvShape, q: Quant, f: Epilogue,
                  width: nat, t: nat, n: nat, j: nat, r: nat)
    requires s.kh > 0 && s.kw > 0 && s.ow > 0 && |w| == s.oc * Taps(s) && |b| == s.oc && |scale| == s.oc && |shift| == s.oc
    requires t * width + width <= s.oc && j < width
    ensures (t * width + width) * Taps(s) <= |w| && (t * width + width) * 1 <= |b|
    ensures FusedCells(x, RowSlice(w, Taps(s), width, t), RowSlice(b, 1, width, t),
                       scale[t * width..t * width + width], shift[t * width..t * width + width], s.(oc := width), q, f)(n, j, r)
         == FusedCells(x, w, b, scale, shift, s, q, f)(n, t * width + j, r)
  {
    hide FusedAt, RowSlice, Taps;
    FusedTile(x, w, b, scale, shift, s, q, f, width, t, n, j, r / s.ow, r % s.ow);
  }

  lemma LaidHolds(outer: nat, channels: nat, inner: nat, at: (nat, nat, nat) -> int, o: nat, c: nat, r: nat)
    requires o < outer && c < channels && r < inner
    ensures At(Laid(outer, channels, inner, at), Position(channels, inner, o, c, r)) == at(o, c, r)
  {
    LaidAt(outer, channels, inner, at, o, c, r);
  }

  lemma HoldsParts(outer: nat, tiles: nat, width: nat, inner: nat, whole: (nat, nat, nat) -> int, parts: seq<seq<int>>)
    requires |parts| == tiles
    requires forall t: nat, o: nat, j: nat, r: nat :: t < tiles && o < outer && j < width && r < inner ==>
      At(parts[t], Position(width, inner, o, j, r)) == whole(o, t * width + j, r)
    ensures HoldParts(outer, tiles, width, inner, whole, parts)
  {
  }

  /** Splitting a convolution along its output channels computes the same tensor. */
  lemma ConvSplit(x: seq<int>, w: seq<int>, b: seq<int>, s: ConvShape, q: Quant, tiles: nat, width: nat)
    requires s.kh > 0 && s.kw > 0 && s.ow > 0 && |w| == s.oc * Taps(s) && |b| == s.oc
    requires width * tiles == s.oc && tiles >= 1 && width >= 1
    ensures ConvOut(x, w, b, s, q) == Laid(s.n, s.oc, s.oh * s.ow, Joined(ConvTiles(x, w, b, s, q, tiles, width), width, s.oh * s.ow))
  {
    hide *;
    var parts, whole, inner := ConvTiles(x, w, b, s, q, tiles, width), ConvCells(x, w, b, s, q), s.oh * s.ow;
    forall t: nat, n: nat, j: nat, r: nat | t < tiles && n < s.n && j < width && r < inner
      ensures |parts| == tiles && At(parts[t], Position(width, inner, n, j, r)) == whole(n, t * width + j, r)
    {
      ConvPart(x, w, b, s, q, tiles, width, t, n, j, r);
    }
    ConvPartsCount(x, w, b, s, q, tiles, width);
    HoldsParts(s.n, tiles, width, inner, whole, parts);
    JoinIsWhole(s.n, tiles, width, inner, whole, parts);
    ConvWhole(x, w, b, s, q);
  }

  lemma ConvWhole(x: seq<int>, w: seq<int>, b: seq<int>, s: ConvShape, q: Quant)
    requires s.kh > 0 && s.kw > 0 && s.ow > 0
    ensures ConvOut(x, w, b, s, q) == Laid(s.n, s.oc, s.oh * s.ow, ConvCells(x, w, b, s, q))
  {
  }

  lemma ConvPartsCount(x: seq<int>, w: seq<int>, b: seq<int>, s: ConvShape, q: Quant, tiles: nat, width: nat)
    requires s.kh > 0 && s.kw > 0 && s.ow > 0 && |w| == s.oc * Taps(s) && |b| == s.oc && width * tiles == s.oc
    ensures |ConvTiles(x, w, b, s, q, tiles, width)| == tiles
  {
    hide RowSlice, ConvOut, Taps;
  }

  lemma ConvPart(x: seq<int>, w: seq<int>, b: seq<int>, s: ConvShape, q: Quant, tiles: nat, width: nat, t: nat, n: nat, j: nat, r: nat)
    requires s.kh > 0 && s.kw > 0 && s.ow > 0 && |w| == s.oc * Taps(s) && |b| == s.oc && width * tiles == s.oc
    requires t < tiles && n < s.n && j < width && r < s.oh * s.ow
    ensures |ConvTiles(x, w, b, s, q, tiles, width)| == tiles
    ensures At(ConvTiles(x, w, b, s, q, tiles, width)[t], Position(width, s.oh * s.ow, n, j, r))
         == ConvCells(x, w, b, s, q)(n, t * width + j, r)
  {
    hide RowSlice, Laid, ConvCells, At, Position, Taps;
    SliceFits(s.oc, tiles, width, t, Taps(s));
    SliceFits(s.oc, tiles, width, t, 1);
    ConvCell(x, w, b, s, q, width, t, n, j, r);
    LaidHolds(s.n, width, s.oh * s.ow, ConvCells(x, RowSlice(w, Taps(s), width, t), RowSlice(b, 1, width, t), s.(oc := width), q), n, j, r);
  }

  /** Splitting a fused convolution along its output channels computes the same tensor. */
  lemma FusedSplit(x: seq<int>, w: seq<int>, b: seq<int>, scale: seq<real>, shift: seq<real>, s: ConvShape, q: Quant, f: Epilogue,
                   tiles: nat, width: nat)
    requires s.kh > 0 && s.kw > 0 && s.ow > 0 && |w| == s.oc * Taps(s) && |b| == s.oc && |scale| == s.oc && |shift| == s.oc
    requires width * tiles == s.oc && tiles >= 1 && width >= 1
    ensures FusedOut(x, w, b, scale, shift, s, q, f)
         == Laid(s.n, s.oc, s.oh * s.ow, Joined(FusedTiles(x, w, b, scale, shift, s, q, f, tiles, width), width, s.oh * s.ow))
  {
    hide *;
    var parts, whole, inner := FusedTiles(x, w, b, scale, shift, s, q, f, tiles, width), FusedCells(x, w, b, scale, shift, s, q, f), s.oh * s.ow;
    forall t: nat, n: nat, j: nat, r: nat | t < tiles && n < s.n && j < width && r < inner
      ensures |parts| == tiles && At(parts[t], Position(width, inner, n, j, r)) == whole(n, t * width + j, r)
    {
      FusedPart(x, w, b, scale, shift, s, q, f, tiles, width, t, n, j, r);
    }
    FusedPartsCount(x, w, b, scale, shift, s, q, f, tiles, width);
    HoldsParts(s.n, tiles, width, inner, whole, parts);
    JoinIsWhole(s.n, tiles, width, inner, whole, parts);
    FusedWhole(x, w, b, scale, shift, s, q, f);
  }

  lemma FusedWhole(x: seq<int>, w: seq<int>, b: seq<int>, scale: seq<real>, shift: seq<real>, s: ConvShape, q: Quant, f: Epilogue)
    requires s.kh > 0 && s.kw > 0 && s.ow > 0
    ensures FusedOut(x, w, b, scale, shift, s, q, f) == Laid(s.n, s.oc, s.oh * s.ow, FusedCells(x, w, b, scale, shift, s, q, f))
  {
  }

  lemma FusedPartsCount(x: seq<int>, w: seq<int>, b: seq<int>, scale: seq<real>, shift: seq<real>, s: ConvShape, q: Quant, f: Epilogue,
                        tiles: nat, width: nat)
    requires s.kh > 0 && s.kw > 0 && s.ow > 0 && |w| == s.oc * Taps(s) && |b| == s.oc && |scale| == s.oc && |shift| == s.oc
    requires width * tiles == s.oc
    ensures |FusedTiles(x, w, b, scale, shift, s, q, f, tiles, width)| == tiles
  {
    hide RowSlice, FusedOut, Taps;
  }

  lemma FusedPart(x: seq<int>, w: seq<int>, b: seq<int>, scale: seq<real>, shift: seq<real>, s: ConvShape, q: Quant, f: Epilogue,
                  tiles: nat, width: nat, t: nat, n: nat, j: nat, r: nat)
    requires s.kh > 0 && s.kw > 0 && s.ow > 0 && |w| == s.oc * Taps(s) && |b| == s.oc && |scale| == s.oc && |shift| == s.oc
    requires width * tiles == s.oc && t < tiles && n < s.n && j < width && r < s.oh * s.ow
    ensures |FusedTiles(x, w, b, scale, shift, s, q, f, tiles, width)| == tiles
    ensures At(FusedTiles(x, w, b, scale, shift, s, q, f, tiles, width)[t], Position(width, s.oh * s.ow, n, j, r))
         == FusedCells(x, w, b, scale, shift, s, q, f)(n, t * width + j, r)
  {
    hide RowSlice, Laid, FusedCells, At, Position, Taps;
    SliceFits(s.oc, tiles, width, t, Taps(s));
    SliceFits(s.oc, tiles, width, t, 1);
    FusedCell(x, w, b, scale, shift, s, q, f, width, t, n, j, r);
    LaidHolds(s.n, width, s.oh * s.ow, FusedCells(x, RowSlice(w, Taps(s), width, t), RowSlice(b, 1, width, t),
      scale[t * width..t * width + width], shift[t * width..t * width + width], s.(oc := width), q, f), n, j, r);
  }
}
