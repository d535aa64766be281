/** Folding a pad and a batch norm into a convolution (pipeline/extract_graph_export.py), over exact
    reals, for all strides, dilations, kernel sizes and groups. */
module ConvFold {
  import opened Ir

  // ---------------------------------------------------------------- convolution

  /** A batch of images: element (n, c, i, j), rows below `h` and columns below `w`. What `at` says of
      other positions is what happens to lie there. */
  datatype Image = Image(at: (int, int, int, int) -> real, batch: nat, channels: nat, h: nat, w: nat)

  datatype Geometry = Geometry(groups: nat, icPerGroup: nat, ocPerGroup: nat, kh: nat, kw: nat,
                               sh: int, sw: int, ph: int, pw: int, dh: int, dw: int)

  type Weights = (int, int, int, int) -> real   // output channel, input channel in the group, row, column
  type PerChannel = int -> real

  function Read(x: Image, n: int, c: int, i: int, j: int): real {
    if 0 <= i < x.h && 0 <= j < x.w then x.at(n, c, i, j) else 0.0
  }

  function Group(g: Geometry, oc: int): int {
    if g.ocPerGroup == 0 then 0 else oc / g.ocPerGroup
  }

  /** One product of the window at (oh, ow). */
  function Tap(x: Image, g: Geometry, w: Weights, n: int, oc: int, oh: int, ow: int, ic: int, kh: int, kw: int): real {
    Read(x, n, Group(g, oc) * g.icPerGroup + ic, oh * g.sh - g.ph + kh * g.dh, ow * g.sw - g.pw + kw * g.dw) * w(oc, ic, kh, kw)
  }

  /** The taps in the order channel, row, column. */
  function TapAt(x: Image, g: Geometry, w: Weights, n: int, oc: int, oh: int, ow: int, t: nat): real
    requires g.kh > 0 && g.kw > 0
  {
    Tap(x, g, w, n, oc, oh, ow, t / g.kw / g.kh, t / g.kw % g.kh, t % g.kw)
  }

  function Window(x: Image, g: Geometry, w: Weights, n: int, oc: int, oh: int, ow: int, taps: nat): real
    requires g.kh > 0 && g.kw > 0
  {
    if taps == 0 then 0.0
    else Window(x, g, w, n, oc, oh, ow, taps - 1) + TapAt(x, g, w, n, oc, oh, ow, taps - 1)
  }

  function ConvAt(x: Image, g: Geometry, w: Weights, b: PerChannel, n: int, oc: int, oh: int, ow: int): real
    requires g.kh > 0 && g.kw > 0
  {
    b(oc) + Window(x, g, w, n, oc, oh, ow, g.icPerGroup * g.kh * g.kw)
  }

  /** What a weight meets: the element of its channel that the window has there, or nothing outside. */
  ghost predicate Meets(x: Image, g: Geometry, n: int, oc: int, oh: int, ow: int, ic: nat, kh: nat, kw: nat, v: real)
    requires g.ocPerGroup > 0
  {
    var i, j := oh * g.sh + kh * g.dh - g.ph, ow * g.sw + kw * g.dw - g.pw;
    v == if 0 <= i < x.h && 0 <= j < x.w then x.at(n, oc / g.ocPerGroup * g.icPerGroup + ic, i, j) else 0.0
  }

  ghost predicate OnlyWeight(w: Weights, oc: int, ic: nat, kh: nat, kw: nat) {
    forall a, b, c :: (a, b, c) != (ic as int, kh as int, kw as int) ==> w(oc, a, b, c) == 0.0
  }

  /** A kernel with one weight gives bias plus this weight times what it meets. */
  lemma OneWeight(x: Image, g: Geometry, w: Weights, b: PerChannel, n: int, oc: int, oh: int, ow: int, ic: nat, kh: nat, kw: nat, v: real)
    requires ic < g.icPerGroup && kh < g.kh && kw < g.kw && g.ocPerGroup > 0
    requires OnlyWeight(w, oc, ic, kh, kw) && Meets(x, g, n, oc, oh, ow, ic, kh, kw, v)
    ensures ConvAt(x, g, w, b, n, oc, oh, ow) == b(oc) + v * w(oc, ic, kh, kw)
  {
    var t := (ic * g.kh + kh) * g.kw + kw;
    TapIndex(g, ic, kh, kw);
    assert TapAt(x, g, w, n, oc, oh, ow, t) == v * w(oc, ic, kh, kw);
    OneTap(x, g, w, n, oc, oh, ow, t, ic, kh, kw, g.icPerGroup * g.kh * g.kw);
  }

  lemma TapIndex(g: Geometry, ic: nat, kh: nat, kw: nat)
    requires ic < g.icPerGroup && kh < g.kh && kw < g.kw
    ensures var t := (ic * g.kh + kh) * g.kw + kw;
      0 <= t < g.icPerGroup * g.kh * g.kw && t / g.kw / g.kh == ic && t / g.kw % g.kh == kh && t % g.kw == kw
  {
    var r := ic * g.kh + kh;
    Inside(ic, g.icPerGroup, g.kh, kh);
    Inside(r, g.icPerGroup * g.kh, g.kw, kw);
    ThreeDigits(ic, g.kh, kh, g.kw, kw);
  }

  lemma ThreeDigits(a: nat, n: nat, b: nat, m: nat, c: nat)
    requires b < n && c < m
    ensures var t := (a * n + b) * m + c; t / m / n == a && t / m % n == b && t % m == c
  {
    Digits(a * n + b, m, c);
    Digits(a, n, b);
  }

  lemma Inside(a: nat, m: nat, n: nat, b: nat)
    requires a < m && b < n
    ensures 0 <= a * n + b < m * n
  {
    var d: nat := m - a - 1;
    assert m * n == (a + 1 + d) * n == a * n + n + d * n;
    assert d * n >= 0 && a * n >= 0;
  }

  lemma Digits(a: nat, n: nat, b: nat)
    requires b < n
    ensures (a * n + b) / n == a && (a * n + b) % n == b
  {
    var t := a * n + b;
    var k := t / n - a;
    assert k * n == b - t % n;
    assert k >= 1 ==> k * n >= n;
    assert k <= -1 ==> k * n <= -1 * n;
  }

  /** No other tap counts. */
  lemma {:induction false} OneTap(x: Image, g: Geometry, w: Weights, n: int, oc: int, oh: int, ow: int, t: nat, ic: nat, kh: nat, kw: nat, taps: nat)
    requires g.kh > 0 && g.kw > 0 && OnlyWeight(w, oc, ic, kh, kw)
    requires kh < g.kh && kw < g.kw && t == (ic * g.kh + kh) * g.kw + kw
    ensures Window(x, g, w, n, oc, oh, ow, taps) == if t < taps then TapAt(x, g, w, n, oc, oh, ow, t) else 0.0
  {
    if taps > 0 {
      OneTap(x, g, w, n, oc, oh, ow, t, ic, kh, kw, taps - 1);
      if taps - 1 != t {
        var s := taps - 1;
        OtherTap(g, s, t, ic, kh, kw);
        assert w(oc, s / g.kw / g.kh, s / g.kw % g.kh, s % g.kw) == 0.0;
        hide Read;
        assert TapAt(x, g, w, n, oc, oh, ow, s) == 0.0;
      }
    }
  }

  lemma OtherTap(g: Geometry, s: nat, t: nat, ic: nat, kh: nat, kw: nat)
    requires g.kh > 0 && g.kw > 0 && s != t && t == (ic * g.kh + kh) * g.kw + kw
    ensures (s / g.kw / g.kh, s / g.kw % g.kh, s % g.kw) != (ic, kh, kw)
  {
    var r := s / g.kw;
    assert s == r * g.kw + s % g.kw && r == r / g.kh * g.kh + r % g.kh;
  }

  /** Kernels add up. */
  lemma {:induction false} WeightsAddUp(x: Image, g: Geometry, w: Weights, v: Weights, u: Weights, n: int, oc: int, oh: int, ow: int, taps: nat)
    requires g.kh > 0 && g.kw > 0 && forall ic, kh, kw :: u(oc, ic, kh, kw) == w(oc, ic, kh, kw) + v(oc, ic, kh, kw)
    ensures Window(x, g, u, n, oc, oh, ow, taps) == Window(x, g, w, n, oc, oh, ow, taps) + Window(x, g, v, n, oc, oh, ow, taps)
  {
    if taps > 0 {
      WeightsAddUp(x, g, w, v, u, n, oc, oh, ow, taps - 1);
      hide Read;
      assert TapAt(x, g, u, n, oc, oh, ow, taps - 1) == TapAt(x, g, w, n, oc, oh, ow, taps - 1) + TapAt(x, g, v, n, oc, oh, ow, taps - 1);
    }
  }

  // ---------------------------------------------------------------- batch norm

  datatype BatchNorm = BatchNorm(gamma: PerChannel, beta: PerChannel, mean: PerChannel, variance: PerChannel,
                                 eps: real,                  // what the layer was built with
                                 epsKeyword: Option<real>)   // what the exported call carries as a keyword

  /** Square roots of positive numbers. */
  ghost predicate IsRoot(root: real -> real) {
    forall v :: v > 0.0 ==> root(v) > 0.0 && root(v) * root(v) == v
  }

  /** The constant the fold uses: the keyword, or 1e-5 when the call has none. */
  function FoldEps(bn: BatchNorm): real {
    if bn.epsKeyword.Some? then bn.epsKeyword.value else 0.00001
  }

  /** The fold finds the layer's constant: it is passed as a keyword, or is the usual 1e-5 and not passed. */
  predicate EpsIsKnown(bn: BatchNorm) {
    bn.epsKeyword == Some(bn.eps) || (bn.epsKeyword.None? && bn.eps == 0.00001)
  }

  function Divide(a: real, r: real): real { if r == 0.0 then 0.0 else a / r }

  /** The layer: distance from the mean in standard deviations, times gain, plus shift. */
  function NormedAt(bn: BatchNorm, root: real -> real, oc: int, y: real): real {
    Divide(y - bn.mean(oc), root(bn.variance(oc) + bn.eps)) * bn.gamma(oc) + bn.beta(oc)
  }

  /** The factor the fold multiplies with. */
  function ScaleWith(bn: BatchNorm, eps: real, root: real -> real, oc: int): real {
    Divide(bn.gamma(oc), root(bn.variance(oc) + eps))
  }

  /** What the fold makes of a value, with a given constant. */
  function NormedWith(bn: BatchNorm, eps: real, root: real -> real, oc: int, y: real): real {
    (y - bn.mean(oc)) * ScaleWith(bn, eps, root, oc) + bn.beta(oc)
  }

  lemma KnownMeans(bn: BatchNorm)
    ensures EpsIsKnown(bn) <==> FoldEps(bn) == bn.eps
  {
  }

  lemma DivideCommutes(a: real, g: real, r: real)
    ensures Divide(a, r) * g == a * Divide(g, r)
  {
    if r != 0.0 {
      assert a / r * g * r == a * (g / r) * r by {
        assert a / r * r == a && g / r * r == g;
        Rearranged(a / r, g, r);
        Rearranged(g / r, a, r);
      }
      Cancelled(a / r * g, a * (g / r), r);
    }
  }

  lemma Rearranged(q: real, g: real, r: real)
    ensures q * g * r == q * r * g && g * q * r == g * (q * r)
  {
  }

  lemma Cancelled(x: real, y: real, r: real)
    requires r != 0.0 && x * r == y * r
    ensures x == y
  {
    assert (x - y) * r == 0.0;
  }

  /** With the layer's own constant the fold does what the layer does. */
  lemma NormedAtIs(bn: BatchNorm, root: real -> real, oc: int, y: real)
    ensures NormedAt(bn, root, oc, y) == NormedWith(bn, bn.eps, root, oc, y)
  {
    hide Divide;
    DivideCommutes(y - bn.mean(oc), bn.gamma(oc), root(bn.variance(oc) + bn.eps));
  }

  /** The equation of a batch norm: times the standard deviation, the distance from the shift is the
      gain times the distance from the mean. */
  ghost predicate Normalises(bn: BatchNorm, eps: real, root: real -> real, oc: int, y: real, out: real) {
    (out - bn.beta(oc)) * root(bn.variance(oc) + eps) == bn.gamma(oc) * (y - bn.mean(oc))
  }

  lemma NormEquation(bn: BatchNorm, root: real -> real, oc: int, y: real)
    requires IsRoot(root) && bn.variance(oc) + bn.eps > 0.0
    ensures Normalises(bn, bn.eps, root, oc, y, NormedAt(bn, root, oc, y))
  {
    var r := root(bn.variance(oc) + bn.eps);
    var q := (y - bn.mean(oc)) / r;
    assert q * r == y - bn.mean(oc);
    Rearranged(q, bn.gamma(oc), r);
  }

  lemma FoldEquation(bn: BatchNorm, eps: real, root: real -> real, oc: int, y: real)
    requires IsRoot(root) && bn.variance(oc) + eps > 0.0
    ensures Normalises(bn, eps, root, oc, y, NormedWith(bn, eps, root, oc, y))
  {
    var r := root(bn.variance(oc) + eps);
    var q := bn.gamma(oc) / r;
    assert q * r == bn.gamma(oc);
    Rearranged(q, y - bn.mean(oc), r);
    assert (y - bn.mean(oc)) * q * r == (y - bn.mean(oc)) * (q * r);
  }

  function BiasOr0(b: Option<PerChannel>): PerChannel {
    if b.Some? then b.value else (oc: int) => 0.0
  }

  function FoldWeights(w: Weights, bn: BatchNorm, root: real -> real): Weights {
    (oc: int, ic: int, kh: int, kw: int) => w(oc, ic, kh, kw) * ScaleWith(bn, FoldEps(bn), root, oc)
  }

  function FoldBias(b: Option<PerChannel>, bn: BatchNorm, root: real -> real): PerChannel {
    (oc: int) => (BiasOr0(b)(oc) - bn.mean(oc)) * ScaleWith(bn, FoldEps(bn), root, oc) + bn.beta(oc)
  }

  lemma WindowStep(x: Image, g: Geometry, w: Weights, n: int, oc: int, oh: int, ow: int, taps: nat)
    requires g.kh > 0 && g.kw > 0
    ensures taps == 0 ==> Window(x, g, w, n, oc, oh, ow, taps) == 0.0
    ensures taps > 0 ==> Window(x, g, w, n, oc, oh, ow, taps) == Window(x, g, w, n, oc, oh, ow, taps - 1) + TapAt(x, g, w, n, oc, oh, ow, taps - 1)
  {
    hide TapAt;
  }

  lemma {:induction false} WindowScales(x: Image, g: Geometry, w: Weights, v: Weights, s: real, n: int, oc: int, oh: int, ow: int, taps: nat)
    requires g.kh > 0 && g.kw > 0
    requires forall ic, kh, kw :: v(oc, ic, kh, kw) == w(oc, ic, kh, kw) * s
    ensures Window(x, g, v, n, oc, oh, ow, taps) == Window(x, g, w, n, oc, oh, ow, taps) * s
  {
    hide *;
    WindowStep(x, g, w, n, oc, oh, ow, taps);
    WindowStep(x, g, v, n, oc, oh, ow, taps);
    if taps > 0 {
      var t := taps - 1;
      WindowScales(x, g, w, v, s, n, oc, oh, ow, t);
      TapAtScales(x, g, w, v, s, n, oc, oh, ow, t);
      Distribute(Window(x, g, w, n, oc, oh, ow, t), TapAt(x, g, w, n, oc, oh, ow, t), s);
    }
  }

  lemma TapAtScales(x: Image, g: Geometry, w: Weights, v: Weights, s: real, n: int, oc: int, oh: int, ow: int, t: nat)
    requires g.kh > 0 && g.kw > 0
    requires forall ic, kh, kw :: v(oc, ic, kh, kw) == w(oc, ic, kh, kw) * s
    ensures TapAt(x, g, v, n, oc, oh, ow, t) == TapAt(x, g, w, n, oc, oh, ow, t) * s
  {
    hide Tap;
    TapScales(x, g, w, v, s, n, oc, oh, ow, t / g.kw / g.kh, t / g.kw % g.kh, t % g.kw);
  }

  lemma TapScales(x: Image, g: Geometry, w: Weights, v: Weights, s: real, n: int, oc: int, oh: int, ow: int, ic: int, kh: int, kw: int)
    requires forall ic, kh, kw :: v(oc, ic, kh, kw) == w(oc, ic, kh, kw) * s
    ensures Tap(x, g, v, n, oc, oh, ow, ic, kh, kw) == Tap(x, g, w, n, oc, oh, ow, ic, kh, kw) * s
  {
    var r := Read(x, n, Group(g, oc) * g.icPerGroup + ic, oh * g.sh - g.ph + kh * g.dh, ow * g.sw - g.pw + kw * g.dw);
    Associate(r, w(oc, ic, kh, kw), s);
  }

  lemma Distribute(a: real, b: real, s: real)
    ensures (a + b) * s == a * s + b * s
  {
  }

  lemma Associate(a: real, b: real, s: real)
    ensures a * (b * s) == (a * b) * s
  {
  }

  /** What the folded convolution computes: the normalisation of the plain one, with the constant
      the fold used. */
  lemma FoldedIsNormed(x: Image, g: Geometry, w: Weights, b: Option<PerChannel>, bn: BatchNorm, root: real -> real, n: int, oc: int, oh: int, ow: int)
    requires g.kh > 0 && g.kw > 0
    ensures ConvAt(x, g, FoldWeights(w, bn, root), FoldBias(b, bn, root), n, oc, oh, ow)
         == NormedWith(bn, FoldEps(bn), root, oc, ConvAt(x, g, w, BiasOr0(b), n, oc, oh, ow))
  {
    hide ScaleWith, FoldEps, Window;
    var s := ScaleWith(bn, FoldEps(bn), root, oc);
    var taps := g.icPerGroup * g.kh * g.kw;
    WindowScales(x, g, w, FoldWeights(w, bn, root), s, n, oc, oh, ow, taps);
    Distribute(BiasOr0(b)(oc) - bn.mean(oc), Window(x, g, w, n, oc, oh, ow, taps), s);
  }

  lemma RatiosDiffer(gamma: real, r1: real, r2: real)
    requires r1 > 0.0 && r2 > 0.0
    ensures gamma / r1 == gamma / r2 <==> gamma == 0.0 || r1 == r2
  {
    if gamma / r1 == gamma / r2 {
      assert gamma == (gamma / r1) * r1 && gamma == (gamma / r2) * r2;
      assert (gamma / r1) * (r1 - r2) == 0.0;
    }
  }

  /** Folding a batch norm is right for every value a convolution can take exactly when the channel
      has no gain or the constant the fold used is the layer's own. */
  lemma BatchNormFoldIsRightIff(bn: BatchNorm, root: real -> real, oc: int)
    requires IsRoot(root) && bn.variance(oc) + bn.eps > 0.0 && bn.variance(oc) + FoldEps(bn) > 0.0
    ensures (forall y :: NormedAt(bn, root, oc, y) == NormedWith(bn, FoldEps(bn), root, oc, y))
       <==> bn.gamma(oc) == 0.0 || EpsIsKnown(bn)
  {
    var r1, r2 := root(bn.variance(oc) + bn.eps), root(bn.variance(oc) + FoldEps(bn));
    var s1, s2 := ScaleWith(bn, bn.eps, root, oc), ScaleWith(bn, FoldEps(bn), root, oc);
    KnownMeans(bn);
    RatiosDiffer(bn.gamma(oc), r1, r2);
    assert s1 == bn.gamma(oc) / r1 && s2 == bn.gamma(oc) / r2;
    if r1 == r2 {
      assert bn.variance(oc) + bn.eps == r1 * r1 == r2 * r2;
    }
    forall y
      ensures NormedAt(bn, root, oc, y) == NormedWith(bn, bn.eps, root, oc, y)
    {
      NormedAtIs(bn, root, oc, y);
    }
    hide NormedAt;
    if forall y :: NormedAt(bn, root, oc, y) == NormedWith(bn, FoldEps(bn), root, oc, y) {
      var y := bn.mean(oc) + 1.0;
      assert NormedAt(bn, root, oc, y) == NormedWith(bn, FoldEps(bn), root, oc, y);
      assert y - bn.mean(oc) == 1.0;
    }
  }

  // ---------------------------------------------------------------- pads

  datatype Mode = Constant | Reflect | Replicate | Circular

  /** Pads in the order left, right, top, bottom, channels before and after, batch before and after;
      negative pads crop. */
  datatype PadNode = PadNode(pads: seq<int>, mode: Mode, value: real)

  function PadAt(pad: PadNode, k: nat): int { if k < |pad.pads| then pad.pads[k] else 0 }

  /** The index a padded axis takes its element from; an axis without pads is left alone. */
  function Source(mode: Mode, s: int, size: nat, before: int, after: int): Option<int> {
    if (before == 0 && after == 0) || 0 <= s < size then Some(s)
    else
      match mode
      case Constant => None
      case Reflect => Some(if s < 0 then -s else 2 * (size - 1) - s)
      case Replicate => Some(if s < 0 then 0 else size - 1)
      case Circular => if size == 0 then None else Some(s % size)
  }

  function SourceOf(pad: PadNode, k: nat, i: int, size: nat): Option<int> {
    Source(pad.mode, i - PadAt(pad, k), size, PadAt(pad, k), PadAt(pad, k + 1))
  }

  function PaddedAt(x: Image, pad: PadNode): (int, int, int, int) -> real {
    (n: int, c: int, i: int, j: int) =>
      var sn, sc, si, sj := SourceOf(pad, 6, n, x.batch), SourceOf(pad, 4, c, x.channels), SourceOf(pad, 2, i, x.h), SourceOf(pad, 0, j, x.w);
      if sn.Some? && sc.Some? && si.Some? && sj.Some? then x.at(sn.value, sc.value, si.value, sj.value) else pad.value
  }

  function Size(n: int): nat { if n < 0 then 0 else n }

  function Resized(pad: PadNode, k: nat, size: nat): nat { Size(size + PadAt(pad, k) + PadAt(pad, k + 1)) }

  function PaddedBy(x: Image, pad: PadNode): Image {
    Image(PaddedAt(x, pad), Resized(pad, 6, x.batch), Resized(pad, 4, x.channels), Resized(pad, 2, x.h), Resized(pad, 0, x.w))
  }

  /** Something is left, and reflected or repeated parts are not longer than the axis. */
  ghost predicate AxisAllowed(pad: PadNode, k: nat, size: nat) {
    && size + PadAt(pad, k) + PadAt(pad, k + 1) >= 1
    && (pad.mode.Reflect? ==> PadAt(pad, k) < size && PadAt(pad, k + 1) < size)
    && (pad.mode.Circular? ==> PadAt(pad, k) <= size && PadAt(pad, k + 1) <= size)
  }

  ghost predicate Allowed(x: Image, pad: PadNode) {
    AxisAllowed(pad, 6, x.batch) && AxisAllowed(pad, 4, x.channels) && AxisAllowed(pad, 2, x.h) && AxisAllowed(pad, 0, x.w)
  }

  predicate AllZero(pads: seq<int>) { forall i :: 0 <= i < |pads| ==> pads[i] == 0 }

  predicate Symmetric(pads: seq<int>) { |pads| >= 4 && pads[0] == pads[1] && pads[2] == pads[3] }

  datatype PadFold = Ignored | Widened | Separate

  /** What becomes of a pad in front of a convolution: nothing, padding of the convolution, or an op. */
  function FoldPad(pad: PadNode): PadFold {
    if AllZero(pad.pads) then Ignored else if Symmetric(pad.pads) then Widened else Separate
  }

  /** The op of a pad that is not folded pads rows and columns with zeros, whatever the node says. */
  function ZeroPad(pad: PadNode): PadNode {
    PadNode([PadAt(pad, 0), PadAt(pad, 1), PadAt(pad, 2), PadAt(pad, 3)], Constant, 0.0)
  }

  function EmittedInput(x: Image, pad: PadNode): Image {
    if FoldPad(pad).Separate? then PaddedBy(x, ZeroPad(pad)) else x
  }

  function EmittedGeometry(g: Geometry, pad: PadNode): (r: Geometry)
    ensures r.kh == g.kh && r.kw == g.kw
  {
    if FoldPad(pad).Widened? then g.(ph := g.ph + PadAt(pad, 2), pw := g.pw + PadAt(pad, 0)) else g
  }

  // ---------------------------------------------------------------- when the pad survives

  ghost predicate Legal(g: Geometry) {
    && g.kh > 0 && g.kw > 0 && g.sh > 0 && g.sw > 0 && g.dh > 0 && g.dw > 0 && g.ph >= 0 && g.pw >= 0 && g.ocPerGroup > 0
  }

  predicate Accepts(g: Geometry, x: Image) { x.channels == g.groups * g.icPerGroup }

  /** How many outputs an axis has. */
  function Outputs(size: int, p: int, d: int, k: int, s: int): int
    requires s > 0
  {
    (size + 2 * p - d * (k - 1) - 1) / s + 1
  }

  function OutH(g: Geometry, x: Image): int
    requires g.sh > 0
  {
    Outputs(x.h, g.ph, g.dh, g.kh, g.sh)
  }

  function OutW(g: Geometry, x: Image): int
    requires g.sw > 0
  {
    Outputs(x.w, g.pw, g.dw, g.kw, g.sw)
  }

  /** Two convolutions fit their images and have results of one shape. */
  ghost predicate SameShape(g: Geometry, x: Image, h: Geometry, y: Image)
    requires Legal(g) && h.sh > 0 && h.sw > 0
  {
    x.batch == y.batch && x.channels == y.channels && OutH(g, x) == OutH(h, y) && OutW(g, x) == OutW(h, y)
  }

  ghost predicate IsOutput(g: Geometry, x: Image, n: int, oc: int, oh: int, ow: int)
    requires Legal(g)
  {
    0 <= n < x.batch && 0 <= oc < g.groups * g.ocPerGroup && 0 <= oh < OutH(g, x) && 0 <= ow < OutW(g, x)
  }

  ghost predicate SameAt(x: Image, y: Image, g: Geometry, h: Geometry, w: Weights, b: PerChannel, n: int, oc: int, oh: int, ow: int)
    requires g.kh > 0 && g.kw > 0 && h.kh > 0 && h.kw > 0
  {
    ConvAt(x, g, w, b, n, oc, oh, ow) == ConvAt(y, h, w, b, n, oc, oh, ow)
  }

  /** For this image and kernel, the emitted convolution has the shape and, in channel `oc`, the
      outputs of the convolution of the padded image. */
  ghost predicate PadRightFor(pad: PadNode, oc: int, x: Image, g: Geometry, w: Weights, b: PerChannel)
    requires Legal(g)
  {
    var p, e, h := PaddedBy(x, pad), EmittedInput(x, pad), EmittedGeometry(g, pad);
    && SameShape(g, p, h, e)
    && forall n, oh, ow :: IsOutput(g, p, n, oc, oh, ow) ==> SameAt(p, e, g, h, w, b, n, oc, oh, ow)
  }

  /** The same for every image and kernel. */
  ghost predicate PadRight(pad: PadNode, oc: int) {
    forall x, g, w, b :: Legal(g) && Allowed(x, pad) && Accepts(g, PaddedBy(x, pad)) ==> PadRightFor(pad, oc, x, g, w, b)
  }

  predicate RestZero(pad: PadNode) { PadAt(pad, 4) == 0 && PadAt(pad, 5) == 0 && PadAt(pad, 6) == 0 && PadAt(pad, 7) == 0 }

  predicate SomePositive(pad: PadNode) { PadAt(pad, 0) > 0 || PadAt(pad, 1) > 0 || PadAt(pad, 2) > 0 || PadAt(pad, 3) > 0 }

  /** Nothing to do; or rows and columns only, zeros if anything is added, and no crop that is folded. */
  predicate Harmless(pad: PadNode) {
    AllZero(pad.pads) ||
    (&& RestZero(pad)
     && (SomePositive(pad) ==> pad.mode.Constant? && pad.value == 0.0)
     && (Symmetric(pad.pads) ==> PadAt(pad, 0) >= 0 && PadAt(pad, 2) >= 0))
  }

  /** Pads of an image with four axes come in pairs. */
  predicate Pairs(pad: PadNode) { |pad.pads| % 2 == 0 && |pad.pads| <= 8 }

  lemma ZeroPadAt(pad: PadNode, k: nat)
    ensures PadAt(ZeroPad(pad), k) == if k < 4 then PadAt(pad, k) else 0
  {
  }

  /** Rows and columns of a padded image whose other axes are left alone. */
  lemma PlaneRead(x: Image, pad: PadNode, n: int, c: int, i: int, j: int)
    requires RestZero(pad)
    ensures var si, sj := SourceOf(pad, 2, i, x.h), SourceOf(pad, 0, j, x.w);
      Read(PaddedBy(x, pad), n, c, i, j) ==
        if !(0 <= i < Resized(pad, 2, x.h) && 0 <= j < Resized(pad, 0, x.w)) then 0.0
        else if si.Some? && sj.Some? then x.at(n, c, si.value, sj.value) else pad.value
  {
    InsideAxis(pad, 6, n, x.batch);
    InsideAxis(pad, 4, c, x.channels);
    hide SourceOf, PadAt;
    assert PaddedBy(x, pad).at == PaddedAt(x, pad);
  }

  /** Where an axis is not padded, its elements are its own. */
  lemma InsideAxis(pad: PadNode, k: nat, i: int, size: nat)
    ensures 0 <= i - PadAt(pad, k) < size ==> SourceOf(pad, k, i, size) == Some(i - PadAt(pad, k))
    ensures PadAt(pad, k) == 0 && PadAt(pad, k + 1) == 0 ==> SourceOf(pad, k, i, size) == Some(i)
    ensures pad.mode.Constant? && !(0 <= i - PadAt(pad, k) < size) && (PadAt(pad, k) != 0 || PadAt(pad, k + 1) != 0) ==> SourceOf(pad, k, i, size) == None
    ensures PadAt(pad, k) <= 0 && PadAt(pad, k + 1) <= 0 && 0 <= i < Resized(pad, k, size) ==> 0 <= i - PadAt(pad, k) < size
  {
  }

  ghost function Down(pad: PadNode): int { if FoldPad(pad).Widened? then PadAt(pad, 2) else 0 }

  ghost function Right(pad: PadNode): int { if FoldPad(pad).Widened? then PadAt(pad, 0) else 0 }

  lemma AllZeroAt(pad: PadNode, k: nat)
    requires AllZero(pad.pads)
    ensures PadAt(pad, k) == 0
  {
  }

  lemma SymmetricAt(pad: PadNode)
    requires Symmetric(pad.pads)
    ensures PadAt(pad, 0) == PadAt(pad, 1) && PadAt(pad, 2) == PadAt(pad, 3)
  {
  }

  /** A harmless pad: the emitted convolution reads what the convolution of the padded image reads. */
  lemma SameRead(x: Image, pad: PadNode, n: int, c: int, i: int, j: int)
    requires Harmless(pad)
    ensures Read(PaddedBy(x, pad), n, c, i, j) == Read(EmittedInput(x, pad), n, c, i - Down(pad), j - Right(pad))
  {
    hide *;
    InsideAxis(pad, 2, i, x.h);
    InsideAxis(pad, 0, j, x.w);
    if AllZero(pad.pads) {
      ZeroRead(x, pad, n, c, i, j);
    } else if Symmetric(pad.pads) {
      WidenedRead(x, pad, n, c, i, j);
    } else {
      SeparateRead(x, pad, n, c, i, j);
    }
  }

  lemma ZeroRead(x: Image, pad: PadNode, n: int, c: int, i: int, j: int)
    requires AllZero(pad.pads)
    ensures Read(PaddedBy(x, pad), n, c, i, j) == Read(EmittedInput(x, pad), n, c, i - Down(pad), j - Right(pad))
  {
    AllZeroAt(pad, 0); AllZeroAt(pad, 1); AllZeroAt(pad, 2); AllZeroAt(pad, 3);
    AllZeroAt(pad, 4); AllZeroAt(pad, 5); AllZeroAt(pad, 6); AllZeroAt(pad, 7);
    hide PadAt;
    PlaneRead(x, pad, n, c, i, j);
  }

  lemma WidenedRead(x: Image, pad: PadNode, n: int, c: int, i: int, j: int)
    requires Harmless(pad) && !AllZero(pad.pads) && Symmetric(pad.pads)
    ensures Read(PaddedBy(x, pad), n, c, i, j) == Read(EmittedInput(x, pad), n, c, i - Down(pad), j - Right(pad))
  {
    SymmetricAt(pad);
    PlaneRead(x, pad, n, c, i, j);
    InsideAxis(pad, 2, i, x.h);
    InsideAxis(pad, 0, j, x.w);
    PositiveOrZero(pad);
    hide PadAt, AllZero, Symmetric, SourceOf, PaddedBy;
  }

  /** A harmless pad that is folded and not empty adds something. */
  lemma PositiveOrZero(pad: PadNode)
    requires Harmless(pad) && !AllZero(pad.pads) && Symmetric(pad.pads)
    ensures Pairs(pad) ==> SomePositive(pad)
    ensures !SomePositive(pad) ==> PadAt(pad, 0) == 0 && PadAt(pad, 2) == 0
  {
  }

  lemma SeparateRead(x: Image, pad: PadNode, n: int, c: int, i: int, j: int)
    requires Harmless(pad) && !AllZero(pad.pads) && !Symmetric(pad.pads)
    ensures Read(PaddedBy(x, pad), n, c, i, j) == Read(EmittedInput(x, pad), n, c, i - Down(pad), j - Right(pad))
  {
    var z := ZeroPad(pad);
    ZeroPadAt(pad, 0); ZeroPadAt(pad, 1); ZeroPadAt(pad, 2); ZeroPadAt(pad, 3);
    ZeroPadAt(pad, 4); ZeroPadAt(pad, 5); ZeroPadAt(pad, 6); ZeroPadAt(pad, 7);
    PlaneRead(x, pad, n, c, i, j);
    PlaneRead(x, z, n, c, i, j);
    InsideAxis(pad, 2, i, x.h);
    InsideAxis(pad, 0, j, x.w);
    InsideAxis(z, 2, i, x.h);
    InsideAxis(z, 0, j, x.w);
    hide PadAt, AllZero, Symmetric, SourceOf, PaddedBy, Read;
  }

  lemma {:induction false} SameWindow(x: Image, pad: PadNode, g: Geometry, w: Weights, n: int, oc: int, oh: int, ow: int, taps: nat)
    requires g.kh > 0 && g.kw > 0 && Harmless(pad)
    ensures Window(PaddedBy(x, pad), g, w, n, oc, oh, ow, taps) == Window(EmittedInput(x, pad), EmittedGeometry(g, pad), w, n, oc, oh, ow, taps)
  {
    hide *;
    var h := EmittedGeometry(g, pad);
    WindowStep(PaddedBy(x, pad), g, w, n, oc, oh, ow, taps);
    WindowStep(EmittedInput(x, pad), h, w, n, oc, oh, ow, taps);
    if taps > 0 {
      SameWindow(x, pad, g, w, n, oc, oh, ow, taps - 1);
      SameTap(x, pad, g, w, n, oc, oh, ow, taps - 1);
    }
  }

  lemma SameTap(x: Image, pad: PadNode, g: Geometry, w: Weights, n: int, oc: int, oh: int, ow: int, t: nat)
    requires g.kh > 0 && g.kw > 0 && Harmless(pad)
    ensures TapAt(PaddedBy(x, pad), g, w, n, oc, oh, ow, t) == TapAt(EmittedInput(x, pad), EmittedGeometry(g, pad), w, n, oc, oh, ow, t)
  {
    var ic, kh, kw := t / g.kw / g.kh, t / g.kw % g.kh, t % g.kw;
    SameRead(x, pad, n, Group(g, oc) * g.icPerGroup + ic, oh * g.sh - g.ph + kh * g.dh, ow * g.sw - g.pw + kw * g.dw);
    hide PaddedBy, EmittedInput, Read, Harmless, AllZero, Symmetric;
  }

  lemma HarmlessShape(x: Image, pad: PadNode, g: Geometry)
    requires Harmless(pad) && Legal(g) && Allowed(x, pad)
    ensures SameShape(g, PaddedBy(x, pad), EmittedGeometry(g, pad), EmittedInput(x, pad))
  {
    ZeroPadAt(pad, 0); ZeroPadAt(pad, 1); ZeroPadAt(pad, 2); ZeroPadAt(pad, 3);
    ZeroPadAt(pad, 4); ZeroPadAt(pad, 5); ZeroPadAt(pad, 6); ZeroPadAt(pad, 7);
    if AllZero(pad.pads) {
      AllZeroAt(pad, 0); AllZeroAt(pad, 1); AllZeroAt(pad, 2); AllZeroAt(pad, 3);
      AllZeroAt(pad, 4); AllZeroAt(pad, 5); AllZeroAt(pad, 6); AllZeroAt(pad, 7);
    }
    if Symmetric(pad.pads) {
      SymmetricAt(pad);
    }
    hide PadAt, AllZero, Symmetric, ZeroPad, PaddedAt;
  }

  lemma HarmlessIsRight(pad: PadNode, oc: int)
    requires Harmless(pad)
    ensures PadRight(pad, oc)
  {
    forall x, g, w, b | Legal(g) && Allowed(x, pad) && Accepts(g, PaddedBy(x, pad))
      ensures PadRightFor(pad, oc, x, g, w, b)
    {
      HarmlessShape(x, pad, g);
      var p, e, h := PaddedBy(x, pad), EmittedInput(x, pad), EmittedGeometry(g, pad);
      hide PaddedBy, EmittedInput, Harmless, SameShape, Legal, Allowed;
      forall n, oh, ow | IsOutput(g, p, n, oc, oh, ow)
        ensures SameAt(p, e, g, h, w, b, n, oc, oh, ow)
      {
        SameConv(x, pad, g, w, b, n, oc, oh, ow);
      }
    }
  }

  lemma SameConv(x: Image, pad: PadNode, g: Geometry, w: Weights, b: PerChannel, n: int, oc: int, oh: int, ow: int)
    requires g.kh > 0 && g.kw > 0 && Harmless(pad)
    ensures SameAt(PaddedBy(x, pad), EmittedInput(x, pad), g, EmittedGeometry(g, pad), w, b, n, oc, oh, ow)
  {
    SameWindow(x, pad, g, w, n, oc, oh, ow, g.icPerGroup * g.kh * g.kw);
    hide Window, PaddedBy, EmittedInput, Harmless;
  }

  // ---------------------------------------------------------------- probing a pad

  /** One-by-one kernels that pick a channel. */
  function Pick(c: int): Weights { (oc: int, ic: int, kh: int, kw: int) => if ic == c then 1.0 else 0.0 }

  const NO_BIAS: PerChannel := (oc: int) => 0.0

  function Probe(oc: nat, channels: nat, p: nat): Geometry {
    Geometry(1, channels, oc + 1, 1, 1, 1, 1, p, p, 1, 1)
  }

  lemma {:induction false} PickedWindow(x: Image, g: Geometry, n: int, oc: int, oh: int, ow: int, c: nat, taps: nat)
    requires g.kh == 1 && g.kw == 1 && g.sh == 1 && g.sw == 1 && g.dh == 1 && g.dw == 1 && Group(g, oc) == 0
    ensures Window(x, g, Pick(c), n, oc, oh, ow, taps) == if c < taps then Read(x, n, c, oh - g.ph, ow - g.pw) else 0.0
  {
    if taps > 0 {
      PickedWindow(x, g, n, oc, oh, ow, c, taps - 1);
      var t := taps - 1;
      assert t / g.kw / g.kh == t && t / g.kw % g.kh == 0 && t % g.kw == 0;
      hide Read;
      assert TapAt(x, g, Pick(c), n, oc, oh, ow, t) == Read(x, n, t, oh - g.ph, ow - g.pw) * (if t == c then 1.0 else 0.0);
    }
  }

  lemma ProbeReads(x: Image, g: Geometry, n: int, oc: nat, oh: int, ow: int, c: nat)
    requires g.kh == 1 && g.kw == 1 && g.sh == 1 && g.sw == 1 && g.dh == 1 && g.dw == 1
    requires g.ocPerGroup == oc + 1 && c < g.icPerGroup
    ensures ConvAt(x, g, Pick(c), NO_BIAS, n, oc, oh, ow) == Read(x, n, c, oh - g.ph, ow - g.pw)
  {
    PickedWindow(x, g, n, oc, oh, ow, c, g.icPerGroup);
  }

  /** What a right pad has to satisfy at one position of the padded image and its surroundings. */
  lemma ProbeShows(pad: PadNode, oc: nat, x: Image, p: nat, n: int, c: nat, i: int, j: int)
    requires PadRight(pad, oc) && Allowed(x, pad)
    requires 0 <= n < PaddedBy(x, pad).batch && c < PaddedBy(x, pad).channels
    requires 0 <= i + p < PaddedBy(x, pad).h + 2 * p && 0 <= j + p < PaddedBy(x, pad).w + 2 * p
    ensures EmittedInput(x, pad).batch == PaddedBy(x, pad).batch && EmittedInput(x, pad).channels == PaddedBy(x, pad).channels
    ensures Read(PaddedBy(x, pad), n, c, i, j) == Read(EmittedInput(x, pad), n, c, i - Down(pad), j - Right(pad))
  {
    var q, e := PaddedBy(x, pad), EmittedInput(x, pad);
    var g := Probe(oc, q.channels, p);
    var h := EmittedGeometry(g, pad);
    var oh, ow := i + p, j + p;
    hide PaddedBy, EmittedInput, Allowed, ConvAt, Read, Pick;
    assert PadRightFor(pad, oc, x, g, Pick(c), NO_BIAS);
    assert IsOutput(g, q, n, oc, oh, ow);
    assert SameAt(q, e, g, h, Pick(c), NO_BIAS, n, oc, oh, ow);
    ProbeReads(q, g, n, oc, oh, ow, c);
    ProbeReads(e, h, n, oc, oh, ow, c);
  }

  function Abs(n: int): nat { if n < 0 then -n else n }

  /** More than any pad adds or crops. */
  function Reach(pad: PadNode): nat {
    1 + Abs(PadAt(pad, 0)) + Abs(PadAt(pad, 1)) + Abs(PadAt(pad, 2)) + Abs(PadAt(pad, 3))
      + Abs(PadAt(pad, 4)) + Abs(PadAt(pad, 5)) + Abs(PadAt(pad, 6)) + Abs(PadAt(pad, 7))
  }

  lemma Within(pad: PadNode, k: nat)
    requires k < 8
    ensures 0 < Reach(pad) + PadAt(pad, k) && PadAt(pad, k) < Reach(pad)
  {
    hide PadAt;
    match k
    case 0 => case 1 => case 2 => case 3 => case 4 => case 5 => case 6 => case 7 =>
  }

  ghost predicate Big(pad: PadNode, x: Image) {
    x.batch == x.channels == x.h == x.w == 2 * Reach(pad)
  }

  lemma BigAllowed(pad: PadNode, x: Image)
    requires Big(pad, x)
    ensures Allowed(x, pad)
    ensures PaddedBy(x, pad).batch == x.batch + PadAt(pad, 6) + PadAt(pad, 7) && PaddedBy(x, pad).channels == x.channels + PadAt(pad, 4) + PadAt(pad, 5)
    ensures PaddedBy(x, pad).h == x.h + PadAt(pad, 2) + PadAt(pad, 3) && PaddedBy(x, pad).w == x.w + PadAt(pad, 0) + PadAt(pad, 1)
    ensures EmittedInput(x, pad).batch == x.batch && EmittedInput(x, pad).channels == x.channels
  {
    BigAxis(pad, 0, x.w);
    BigAxis(pad, 2, x.h);
    BigAxis(pad, 4, x.channels);
    BigAxis(pad, 6, x.batch);
    SeparateSizes(x, pad);
    hide PadAt, PaddedAt, FoldPad, Reach, AxisAllowed, Resized, EmittedInput;
  }

  lemma BigAxis(pad: PadNode, k: nat, size: nat)
    requires k in {0, 2, 4, 6} && size == 2 * Reach(pad)
    ensures AxisAllowed(pad, k, size) && Resized(pad, k, size) == size + PadAt(pad, k) + PadAt(pad, k + 1)
  {
    Within(pad, k);
    Within(pad, k + 1);
    hide PadAt, Reach;
  }

  lemma SeparateSizes(x: Image, pad: PadNode)
    ensures EmittedInput(x, pad).batch == x.batch && EmittedInput(x, pad).channels == x.channels
  {
    ZeroPadAt(pad, 4); ZeroPadAt(pad, 5); ZeroPadAt(pad, 6); ZeroPadAt(pad, 7);
    hide PadAt, PaddedAt, AllZero, Symmetric, ZeroPad;
  }

  /** The first position of an axis that comes from the image itself. */
  function Inner(pad: PadNode, k: nat): nat { if PadAt(pad, k) > 0 then PadAt(pad, k) else 0 }

  lemma InnerFits(pad: PadNode, k: nat)
    requires k in {0, 2, 4, 6}
    ensures 0 <= Inner(pad, k) - PadAt(pad, k) < 2 * Reach(pad) && Inner(pad, k) < 2 * Reach(pad) + PadAt(pad, k) + PadAt(pad, k + 1)
    ensures Inner(pad, k) < 2 * Reach(pad)
  {
    Within(pad, k);
    Within(pad, k + 1);
    hide PadAt, Reach;
  }

  /** At the inner position the padded image holds an element of the image, and the emitted
      convolution reads the element with the same channel and batch index. */
  lemma InnerReads(pad: PadNode, x: Image)
    requires Big(pad, x) && !AllZero(pad.pads)
    ensures var n, c, i, j := Inner(pad, 6), Inner(pad, 4), Inner(pad, 2), Inner(pad, 0);
      && Read(PaddedBy(x, pad), n, c, i, j) == x.at(n - PadAt(pad, 6), c - PadAt(pad, 4), i - PadAt(pad, 2), j - PadAt(pad, 0))
      && Read(EmittedInput(x, pad), n, c, i - Down(pad), j - Right(pad)) == x.at(n, c, i - PadAt(pad, 2), j - PadAt(pad, 0))
  {
    var n, c, i, j := Inner(pad, 6), Inner(pad, 4), Inner(pad, 2), Inner(pad, 0);
    InnerFits(pad, 0); InnerFits(pad, 2); InnerFits(pad, 4); InnerFits(pad, 6);
    BigAllowed(pad, x);
    InnerPadded(pad, x);
    hide PadAt, AllZero, Symmetric, PaddedBy, Inner, Reach, Allowed, Read, ZeroPad;
    if FoldPad(pad).Separate? {
      InnerSeparate(pad, x, n, c, i, j);
    } else {
      PlainRead(x, n, c, i - PadAt(pad, 2), j - PadAt(pad, 0));
    }
  }

  lemma PlainRead(x: Image, n: int, c: int, i: int, j: int)
    requires 0 <= i < x.h && 0 <= j < x.w
    ensures Read(x, n, c, i, j) == x.at(n, c, i, j)
  {
  }

  lemma InnerSeparate(pad: PadNode, x: Image, n: int, c: int, i: int, j: int)
    requires Big(pad, x) && i == Inner(pad, 2) && j == Inner(pad, 0)
    ensures Read(PaddedBy(x, ZeroPad(pad)), n, c, i, j) == x.at(n, c, i - PadAt(pad, 2), j - PadAt(pad, 0))
  {
    var z := ZeroPad(pad);
    ZeroPadAt(pad, 0); ZeroPadAt(pad, 1); ZeroPadAt(pad, 2); ZeroPadAt(pad, 3);
    ZeroPadAt(pad, 4); ZeroPadAt(pad, 5); ZeroPadAt(pad, 6); ZeroPadAt(pad, 7);
    InnerFits(pad, 0); InnerFits(pad, 2);
    hide PadAt, ZeroPad, PaddedBy, SourceOf, Inner, Reach, Read;
    PlaneRead(x, z, n, c, i, j);
    InsideAxis(z, 2, i, x.h);
    InsideAxis(z, 0, j, x.w);
  }

  lemma InnerPadded(pad: PadNode, x: Image)
    requires Big(pad, x)
    ensures var n, c, i, j := Inner(pad, 6), Inner(pad, 4), Inner(pad, 2), Inner(pad, 0);
      Read(PaddedBy(x, pad), n, c, i, j) == x.at(n - PadAt(pad, 6), c - PadAt(pad, 4), i - PadAt(pad, 2), j - PadAt(pad, 0))
  {
    var n, c, i, j := Inner(pad, 6), Inner(pad, 4), Inner(pad, 2), Inner(pad, 0);
    assert x.batch == x.channels == x.h == x.w == 2 * Reach(pad);
    hide *;
    InnerFits(pad, 0); InnerFits(pad, 2); InnerFits(pad, 4); InnerFits(pad, 6);
    BigAllowed(pad, x);
    InsideAxis(pad, 6, n, x.batch);
    InsideAxis(pad, 4, c, x.channels);
    InsideAxis(pad, 2, i, x.h);
    InsideAxis(pad, 0, j, x.w);
    FullRead(x, pad, n, c, i, j);
  }

  lemma FullRead(x: Image, pad: PadNode, n: int, c: int, i: int, j: int)
    requires SourceOf(pad, 6, n, x.batch).Some? && SourceOf(pad, 4, c, x.channels).Some?
    requires SourceOf(pad, 2, i, x.h).Some? && SourceOf(pad, 0, j, x.w).Some?
    requires 0 <= i < PaddedBy(x, pad).h && 0 <= j < PaddedBy(x, pad).w
    ensures Read(PaddedBy(x, pad), n, c, i, j) ==
      x.at(SourceOf(pad, 6, n, x.batch).value, SourceOf(pad, 4, c, x.channels).value, SourceOf(pad, 2, i, x.h).value, SourceOf(pad, 0, j, x.w).value)
  {
    hide SourceOf, Resized, PadAt;
    assert PaddedBy(x, pad).at == PaddedAt(x, pad);
  }

  function ByChannel(size: nat): Image { Image((n: int, c: int, i: int, j: int) => c as real, size, size, size, size) }

  function ByBatch(size: nat): Image { Image((n: int, c: int, i: int, j: int) => n as real, size, size, size, size) }

  function Ones(size: nat): Image { Image((n: int, c: int, i: int, j: int) => 1.0, size, size, size, size) }

  lemma ByChannelIs(pad: PadNode, n: int, c: int, i: int, j: int)
    ensures Big(pad, ByChannel(2 * Reach(pad))) && ByChannel(2 * Reach(pad)).at(n, c, i, j) == c as real
  {
    hide Reach;
  }

  lemma ByBatchIs(pad: PadNode, n: int, c: int, i: int, j: int)
    ensures Big(pad, ByBatch(2 * Reach(pad))) && ByBatch(2 * Reach(pad)).at(n, c, i, j) == n as real
  {
    hide Reach;
  }

  /** A right pad does not shift the channels. */
  lemma RightKeepsChannels(pad: PadNode, oc: nat)
    requires PadRight(pad, oc) && !AllZero(pad.pads)
    ensures PadAt(pad, 4) == 0 && PadAt(pad, 5) == 0
  {
    hide *;
    var x := ByChannel(2 * Reach(pad));
    var n, c, i, j := Inner(pad, 6), Inner(pad, 4), Inner(pad, 2), Inner(pad, 0);
    ByChannelIs(pad, n, c, i - PadAt(pad, 2), j - PadAt(pad, 0));
    ByChannelIs(pad, n - PadAt(pad, 6), c - PadAt(pad, 4), i - PadAt(pad, 2), j - PadAt(pad, 0));
    RightKeepsSizes(pad, oc, x);
    InnerFits(pad, 0); InnerFits(pad, 2); InnerFits(pad, 4); InnerFits(pad, 6);
    BigAllowed(pad, x);
    BigIs(pad, x);
    InnerReads(pad, x);
    ProbeShows(pad, oc, x, 0, n, c, i, j);
  }

  /** Nor the batch. */
  lemma RightKeepsBatch(pad: PadNode, oc: nat)
    requires PadRight(pad, oc) && !AllZero(pad.pads)
    ensures PadAt(pad, 6) == 0 && PadAt(pad, 7) == 0
  {
    hide *;
    var x := ByBatch(2 * Reach(pad));
    var n, c, i, j := Inner(pad, 6), Inner(pad, 4), Inner(pad, 2), Inner(pad, 0);
    ByBatchIs(pad, n, c, i - PadAt(pad, 2), j - PadAt(pad, 0));
    ByBatchIs(pad, n - PadAt(pad, 6), c - PadAt(pad, 4), i - PadAt(pad, 2), j - PadAt(pad, 0));
    RightKeepsSizes(pad, oc, x);
    InnerFits(pad, 0); InnerFits(pad, 2); InnerFits(pad, 4); InnerFits(pad, 6);
    BigAllowed(pad, x);
    BigIs(pad, x);
    InnerReads(pad, x);
    ProbeShows(pad, oc, x, 0, n, c, i, j);
  }

  /** A right pad touches neither channels nor batch. */
  lemma RightKeepsRest(pad: PadNode, oc: nat)
    requires PadRight(pad, oc) && !AllZero(pad.pads)
    ensures RestZero(pad)
  {
    RightKeepsChannels(pad, oc);
    RightKeepsBatch(pad, oc);
    hide PadRight, PadAt, AllZero;
  }

  lemma RightKeepsSizes(pad: PadNode, oc: nat, x: Image)
    requires PadRight(pad, oc) && !AllZero(pad.pads) && Big(pad, x)
    ensures PadAt(pad, 4) + PadAt(pad, 5) == 0 && PadAt(pad, 6) + PadAt(pad, 7) == 0
  {
    hide *;
    InnerFits(pad, 0); InnerFits(pad, 2); InnerFits(pad, 4); InnerFits(pad, 6);
    BigAllowed(pad, x);
    BigIs(pad, x);
    ProbeShows(pad, oc, x, 0, Inner(pad, 6), Inner(pad, 4), Inner(pad, 2), Inner(pad, 0));
  }

  lemma BigIs(pad: PadNode, x: Image)
    requires Big(pad, x)
    ensures x.batch == x.channels == x.h == x.w == 2 * Reach(pad)
  {
    hide Reach;
  }

  /** Outside of the image the emitted convolution reads zero; the padded image has its value there,
      or with the other modes an element of the image. */
  lemma OuterReads(pad: PadNode, i: int, j: int)
    requires RestZero(pad) && !AllZero(pad.pads)
    requires var s := 2 * Reach(pad);
      && 0 <= i < s + PadAt(pad, 2) + PadAt(pad, 3) && 0 <= j < s + PadAt(pad, 0) + PadAt(pad, 1)
      && (!(0 <= i - PadAt(pad, 2) < s) || !(0 <= j - PadAt(pad, 0) < s))
    ensures var x := Ones(2 * Reach(pad));
      && Read(PaddedBy(x, pad), 0, 0, i, j) == (if pad.mode.Constant? then pad.value else 1.0)
      && Read(EmittedInput(x, pad), 0, 0, i - Down(pad), j - Right(pad)) == 0.0
  {
    var x := Ones(2 * Reach(pad));
    BigAllowed(pad, x);
    OuterSources(pad, i, j, 2 * Reach(pad));
    PlaneRead(x, pad, 0, 0, i, j);
    if FoldPad(pad).Separate? {
      var z := ZeroPad(pad);
      ZeroPadAt(pad, 0); ZeroPadAt(pad, 1); ZeroPadAt(pad, 2); ZeroPadAt(pad, 3);
      ZeroPadAt(pad, 4); ZeroPadAt(pad, 5); ZeroPadAt(pad, 6); ZeroPadAt(pad, 7);
      PlaneRead(x, z, 0, 0, i, j);
      OuterSources(z, i, j, 2 * Reach(pad));
      hide PadAt, AllZero, Symmetric, ZeroPad, PaddedBy, SourceOf, Reach, Read, Allowed;
    } else {
      hide PadAt, PaddedBy, Reach, AllZero, Symmetric, Allowed, SourceOf;
    }
  }

  lemma OuterSources(pad: PadNode, i: int, j: int, size: nat)
    requires size > 0 && 0 <= i < size + PadAt(pad, 2) + PadAt(pad, 3) && 0 <= j < size + PadAt(pad, 0) + PadAt(pad, 1)
    requires !(0 <= i - PadAt(pad, 2) < size) || !(0 <= j - PadAt(pad, 0) < size)
    ensures (SourceOf(pad, 2, i, size).Some? && SourceOf(pad, 0, j, size).Some?) <==> !pad.mode.Constant?
  {
    hide PadAt;
  }

  /** A right pad adds zeros only. */
  lemma RightAddsZeros(pad: PadNode, oc: nat)
    requires PadRight(pad, oc) && !AllZero(pad.pads) && RestZero(pad) && SomePositive(pad)
    ensures pad.mode.Constant? && pad.value == 0.0
  {
    var s := 2 * Reach(pad);
    var x := Ones(s);
    InnerFits(pad, 0); InnerFits(pad, 2);
    BigAllowed(pad, x);
    var i, j := Outer(pad).0, Outer(pad).1;
    OuterFits(pad);
    hide PadRight, AllZero, PaddedBy, EmittedInput, Inner, Reach, Allowed, Read, Outer, PadAt;
    OuterReads(pad, i, j);
    ProbeShows(pad, oc, x, 0, 0, 0, i, j);
  }

  /** A position of the padded image that was added. */
  ghost function Outer(pad: PadNode): (int, int) {
    if PadAt(pad, 2) > 0 then (0, Inner(pad, 0))
    else if PadAt(pad, 3) > 0 then (2 * Reach(pad) + PadAt(pad, 2), Inner(pad, 0))
    else if PadAt(pad, 0) > 0 then (Inner(pad, 2), 0)
    else (Inner(pad, 2), 2 * Reach(pad) + PadAt(pad, 0))
  }

  lemma OuterFits(pad: PadNode)
    requires SomePositive(pad)
    ensures var s, (i, j) := 2 * Reach(pad), Outer(pad);
      && 0 <= i < s + PadAt(pad, 2) + PadAt(pad, 3) && 0 <= j < s + PadAt(pad, 0) + PadAt(pad, 1)
      && (!(0 <= i - PadAt(pad, 2) < s) || !(0 <= j - PadAt(pad, 0) < s))
  {
    InnerFits(pad, 0); InnerFits(pad, 2);
    Within(pad, 0); Within(pad, 1); Within(pad, 2); Within(pad, 3);
    hide PadAt, Reach, Inner;
  }

  /** A right pad that is folded does not crop: next to what is cropped, the convolution's own padding
      would read it. */
  lemma RightCropsNothing(pad: PadNode, oc: nat)
    requires PadRight(pad, oc) && !AllZero(pad.pads) && RestZero(pad) && Symmetric(pad.pads)
    ensures PadAt(pad, 0) >= 0 && PadAt(pad, 2) >= 0
  {
    var x := Ones(2 * Reach(pad));
    InnerFits(pad, 0); InnerFits(pad, 2);
    BigAllowed(pad, x);
    var i := if PadAt(pad, 2) < 0 then -1 else Inner(pad, 2);
    var j := if PadAt(pad, 2) >= 0 && PadAt(pad, 0) < 0 then -1 else Inner(pad, 0);
    CropReads(pad, x, i, j);
    hide PadRight, AllZero, PaddedBy, EmittedInput, Allowed, Read, Symmetric, Reach, PadAt;
    ProbeShows(pad, oc, x, 1, 0, 0, i, j);
  }

  lemma CropReads(pad: PadNode, x: Image, i: int, j: int)
    requires x == Ones(2 * Reach(pad)) && !AllZero(pad.pads) && Symmetric(pad.pads)
    ensures i < 0 || j < 0 ==> Read(PaddedBy(x, pad), 0, 0, i, j) == 0.0
    ensures 0 <= i - PadAt(pad, 2) < 2 * Reach(pad) && 0 <= j - PadAt(pad, 0) < 2 * Reach(pad) ==>
      Read(EmittedInput(x, pad), 0, 0, i - Down(pad), j - Right(pad)) == 1.0
  {
    hide PaddedAt, PadAt, Reach, AllZero, Symmetric;
  }

  /** The exact condition: for every image and kernel the emitted convolution is that of the padded
      image, when and only when the pad is harmless. */
  lemma PadIsRightIff(pad: PadNode, oc: nat)
    requires Pairs(pad)
    ensures PadRight(pad, oc) <==> Harmless(pad)
  {
    if Harmless(pad) {
      HarmlessIsRight(pad, oc);
    } else if PadRight(pad, oc) {
      RightKeepsRest(pad, oc);
      hide PadRight, PadAt, AllZero, Symmetric;
      if SomePositive(pad) {
        RightAddsZeros(pad, oc);
      }
      if Symmetric(pad.pads) {
        RightCropsNothing(pad, oc);
      }
    }
  }

  // ---------------------------------------------------------------- pad, convolution and batch norm

  datatype Conv = Conv(g: Geometry, w: Weights, b: PerChannel)

  /** What the convolution is emitted as. */
  function Emitted(g: Geometry, w: Weights, b: Option<PerChannel>, pad: Option<PadNode>, bn: Option<BatchNorm>, root: real -> real): Conv {
    Conv(if pad.Some? then EmittedGeometry(g, pad.value) else g,
         if bn.Some? then FoldWeights(w, bn.value, root) else w,
         if bn.Some? then FoldBias(b, bn.value, root) else BiasOr0(b))
  }

  function Stays(pad: Option<PadNode>): bool { pad.Some? && FoldPad(pad.value).Separate? }

  /** What the emitted convolution reads. */
  function EmittedImage(x: Image, pad: Option<PadNode>, padStays: bool): Image {
    if padStays && pad.Some? then PaddedBy(x, ZeroPad(pad.value)) else x
  }

  /** What the convolution of the model reads. */
  function InFront(x: Image, pad: Option<PadNode>): Image {
    if pad.Some? then PaddedBy(x, pad.value) else x
  }

  /** A convolution with or without bias. */
  function PlainAt(x: Image, g: Geometry, w: Weights, b: Option<PerChannel>, n: int, oc: int, oh: int, ow: int): real
    requires g.kh > 0 && g.kw > 0
  {
    var products := Window(x, g, w, n, oc, oh, ow, g.icPerGroup * g.kh * g.kw);
    if b.Some? then products + b.value(oc) else products
  }

  lemma PlainIs(x: Image, g: Geometry, w: Weights, b: Option<PerChannel>, n: int, oc: int, oh: int, ow: int)
    requires g.kh > 0 && g.kw > 0
    ensures PlainAt(x, g, w, b, n, oc, oh, ow) == ConvAt(x, g, w, BiasOr0(b), n, oc, oh, ow)
  {
    hide Window;
  }

  /** Pad, convolution and batch norm one after the other. */
  function ChainAt(x: Image, g: Geometry, w: Weights, b: Option<PerChannel>, pad: Option<PadNode>, bn: Option<BatchNorm>, root: real -> real,
                   n: int, oc: int, oh: int, ow: int): real
    requires g.kh > 0 && g.kw > 0
  {
    var y := PlainAt(InFront(x, pad), g, w, b, n, oc, oh, ow);
    if bn.Some? then NormedAt(bn.value, root, oc, y) else y
  }

  lemma ChainIs(x: Image, g: Geometry, w: Weights, b: Option<PerChannel>, pad: Option<PadNode>, bn: Option<BatchNorm>, root: real -> real,
                n: int, oc: int, oh: int, ow: int)
    requires g.kh > 0 && g.kw > 0
    ensures var y := ConvAt(InFront(x, pad), g, w, BiasOr0(b), n, oc, oh, ow);
      ChainAt(x, g, w, b, pad, bn, root, n, oc, oh, ow) == if bn.Some? then NormedWith(bn.value, bn.value.eps, root, oc, y) else y
  {
    PlainIs(InFront(x, pad), g, w, b, n, oc, oh, ow);
    hide ConvAt, PlainAt, InFront, BiasOr0, NormedAt, NormedWith;
    if bn.Some? {
      NormedAtIs(bn.value, root, oc, PlainAt(InFront(x, pad), g, w, b, n, oc, oh, ow));
    }
  }

  ghost predicate Usual(x: Image, g: Geometry, pad: Option<PadNode>) {
    Legal(g) && (pad.Some? ==> Allowed(x, pad.value)) && Accepts(g, InFront(x, pad))
  }

  /** For this image and kernel, what was emitted has the shape and, in channel `oc`, the outputs of
      the chain. */
  ghost predicate ChainRightFor(r: Conv, padStays: bool, x: Image, g: Geometry, w: Weights, b: Option<PerChannel>,
                                pad: Option<PadNode>, bn: Option<BatchNorm>, root: real -> real, oc: int)
    requires Legal(g)
  {
    var e := EmittedImage(x, pad, padStays);
    && r.g.kh > 0 && r.g.kw > 0 && r.g.sh > 0 && r.g.sw > 0
    && SameShape(g, InFront(x, pad), r.g, e)
    && forall n, oh, ow :: IsOutput(g, InFront(x, pad), n, oc, oh, ow) ==>
         ConvAt(e, r.g, r.w, r.b, n, oc, oh, ow) == ChainAt(x, g, w, b, pad, bn, root, n, oc, oh, ow)
  }

  /** The same for every image and kernel. */
  ghost predicate ChainRight(pad: Option<PadNode>, bn: Option<BatchNorm>, root: real -> real, oc: int) {
    forall x, g, w, b :: Usual(x, g, pad) ==> ChainRightFor(Emitted(g, w, b, pad, bn, root), Stays(pad), x, g, w, b, pad, bn, root, oc)
  }

  predicate ShapeKept(pad: Option<PadNode>) {
    pad.Some? && !AllZero(pad.value.pads) ==>
      PadAt(pad.value, 4) + PadAt(pad.value, 5) == 0 && PadAt(pad.value, 6) + PadAt(pad.value, 7) == 0
  }

  /** The shape is kept; and the channel has no gain, or the pad is harmless and the batch norm's
      constant is the one the fold used. */
  predicate FoldIsHarmless(pad: Option<PadNode>, bn: Option<BatchNorm>, oc: int) {
    && ShapeKept(pad)
    && ((bn.Some? && bn.value.gamma(oc) == 0.0) ||
        ((pad.Some? ==> Harmless(pad.value)) && (bn.Some? ==> EpsIsKnown(bn.value))))
  }

  ghost predicate Positive(bn: Option<BatchNorm>, oc: int) {
    bn.Some? ==> bn.value.variance(oc) + bn.value.eps > 0.0 && bn.value.variance(oc) + FoldEps(bn.value) > 0.0
  }

  lemma ShapeIsKept(x: Image, g: Geometry, pad: PadNode)
    requires Legal(g) && Allowed(x, pad) && ShapeKept(Some(pad))
    ensures SameShape(g, PaddedBy(x, pad), EmittedGeometry(g, pad), EmittedInput(x, pad))
  {
    ZeroPadAt(pad, 0); ZeroPadAt(pad, 1); ZeroPadAt(pad, 2); ZeroPadAt(pad, 3);
    ZeroPadAt(pad, 4); ZeroPadAt(pad, 5); ZeroPadAt(pad, 6); ZeroPadAt(pad, 7);
    if AllZero(pad.pads) {
      AllZeroAt(pad, 0); AllZeroAt(pad, 1); AllZeroAt(pad, 2); AllZeroAt(pad, 3);
      AllZeroAt(pad, 4); AllZeroAt(pad, 5); AllZeroAt(pad, 6); AllZeroAt(pad, 7);
    }
    if Symmetric(pad.pads) {
      SymmetricAt(pad);
    }
    hide PadAt, AllZero, Symmetric, ZeroPad, PaddedAt;
  }

  lemma NoGain(bn: BatchNorm, root: real -> real, oc: int, eps: real, y: real)
    requires bn.gamma(oc) == 0.0
    ensures NormedWith(bn, eps, root, oc, y) == bn.beta(oc)
  {
    assert ScaleWith(bn, eps, root, oc) == 0.0;
  }

  /** The emitted convolution before the batch norm is folded into it. */
  lemma EmittedConv(x: Image, g: Geometry, w: Weights, b: Option<PerChannel>, pad: Option<PadNode>, bn: Option<BatchNorm>, root: real -> real,
                    n: int, oc: int, oh: int, ow: int)
    requires g.kh > 0 && g.kw > 0
    ensures var r, e := Emitted(g, w, b, pad, bn, root), EmittedImage(x, pad, Stays(pad));
      && r.g.kh > 0 && r.g.kw > 0
      && ConvAt(e, r.g, r.w, r.b, n, oc, oh, ow) ==
         (var y := ConvAt(e, r.g, w, BiasOr0(b), n, oc, oh, ow);
          if bn.Some? then NormedWith(bn.value, FoldEps(bn.value), root, oc, y) else y)
  {
    var r, e := Emitted(g, w, b, pad, bn, root), EmittedImage(x, pad, Stays(pad));
    if bn.Some? {
      FoldedIsNormed(e, r.g, w, b, bn.value, root, n, oc, oh, ow);
    }
    hide ConvAt, FoldWeights, FoldBias, NormedWith, EmittedImage, Stays, EmittedGeometry;
  }

  lemma SomeImages(x: Image, pad: Option<PadNode>)
    ensures pad.Some? ==> EmittedImage(x, pad, Stays(pad)) == EmittedInput(x, pad.value)
    ensures pad.None? ==> EmittedImage(x, pad, Stays(pad)) == x
  {
    hide PaddedBy, ZeroPad;
  }

  lemma HarmlessOutput(x: Image, g: Geometry, w: Weights, b: Option<PerChannel>, pad: Option<PadNode>, bn: Option<BatchNorm>, root: real -> real,
                       n: int, oc: int, oh: int, ow: int)
    requires g.kh > 0 && g.kw > 0 && FoldIsHarmless(pad, bn, oc)
    ensures var r := Emitted(g, w, b, pad, bn, root);
      && r.g.kh > 0 && r.g.kw > 0
      && ConvAt(EmittedImage(x, pad, Stays(pad)), r.g, r.w, r.b, n, oc, oh, ow) == ChainAt(x, g, w, b, pad, bn, root, n, oc, oh, ow)
  {
    var r, e, p := Emitted(g, w, b, pad, bn, root), EmittedImage(x, pad, Stays(pad)), InFront(x, pad);
    SomeImages(x, pad);
    if bn.Some? {
      KnownMeans(bn.value);
    }
    hide PaddedBy, EmittedInput, EmittedImage, Stays, ConvAt, Harmless, ShapeKept, NormedWith, FoldWeights, FoldBias, EmittedGeometry, FoldEps, EpsIsKnown;
    EmittedConv(x, g, w, b, pad, bn, root, n, oc, oh, ow);
    ChainIs(x, g, w, b, pad, bn, root, n, oc, oh, ow);
    hide ChainAt;
    if bn.Some? && bn.value.gamma(oc) == 0.0 {
      NoGain(bn.value, root, oc, FoldEps(bn.value), ConvAt(e, r.g, w, BiasOr0(b), n, oc, oh, ow));
      NoGain(bn.value, root, oc, bn.value.eps, ConvAt(p, g, w, BiasOr0(b), n, oc, oh, ow));
    } else if pad.Some? {
      SameConv(x, pad.value, g, w, BiasOr0(b), n, oc, oh, ow);
    }
  }

  lemma HarmlessChain(x: Image, g: Geometry, w: Weights, b: Option<PerChannel>, pad: Option<PadNode>, bn: Option<BatchNorm>, root: real -> real, oc: int)
    requires Usual(x, g, pad) && FoldIsHarmless(pad, bn, oc)
    ensures ChainRightFor(Emitted(g, w, b, pad, bn, root), Stays(pad), x, g, w, b, pad, bn, root, oc)
  {
    EmittedShape(x, g, w, b, pad, bn, root);
    hide PaddedBy, EmittedImage, Stays, ConvAt, ChainAt, Emitted, InFront, FoldIsHarmless, IsOutput, SameShape;
    forall n, oh, ow | IsOutput(g, InFront(x, pad), n, oc, oh, ow)
      ensures ConvAt(EmittedImage(x, pad, Stays(pad)), Emitted(g, w, b, pad, bn, root).g, Emitted(g, w, b, pad, bn, root).w, Emitted(g, w, b, pad, bn, root).b, n, oc, oh, ow)
           == ChainAt(x, g, w, b, pad, bn, root, n, oc, oh, ow)
    {
      HarmlessOutput(x, g, w, b, pad, bn, root, n, oc, oh, ow);
    }
  }

  lemma EmittedShape(x: Image, g: Geometry, w: Weights, b: Option<PerChannel>, pad: Option<PadNode>, bn: Option<BatchNorm>, root: real -> real)
    requires Usual(x, g, pad) && ShapeKept(pad)
    ensures var r := Emitted(g, w, b, pad, bn, root);
      && r.g.kh > 0 && r.g.kw > 0 && r.g.sh > 0 && r.g.sw > 0
      && SameShape(g, InFront(x, pad), r.g, EmittedImage(x, pad, Stays(pad)))
  {
    SomeImages(x, pad);
    if pad.Some? {
      ShapeIsKept(x, g, pad.value);
    }
    hide PaddedBy, EmittedInput, EmittedImage, Stays, ShapeKept, Allowed, FoldWeights, FoldBias;
  }

  /** What is emitted normalises the convolution without batch norm, with the constant the fold has. */
  ghost predicate EmitsNormed(r: Conv, e: Image, w: Weights, b: Option<PerChannel>, bn: BatchNorm, root: real -> real, n: int, oc: int, oh: int, ow: int) {
    r.g.kh > 0 && r.g.kw > 0 && bn.variance(oc) + FoldEps(bn) > 0.0 ==>
      Normalises(bn, FoldEps(bn), root, oc, PlainAt(e, r.g, w, b, n, oc, oh, ow), ConvAt(e, r.g, r.w, r.b, n, oc, oh, ow))
  }

  lemma EmittedNormalises(r: Conv, e: Image, w: Weights, b: Option<PerChannel>, bn: BatchNorm, root: real -> real, n: int, oc: int, oh: int, ow: int)
    requires IsRoot(root) && r.w == FoldWeights(w, bn, root) && r.b == FoldBias(b, bn, root)
    ensures EmitsNormed(r, e, w, b, bn, root, n, oc, oh, ow)
  {
    hide ConvAt, FoldWeights, FoldBias, NormedWith, FoldEps, IsRoot, Normalises, PlainAt, BiasOr0;
    if r.g.kh > 0 && r.g.kw > 0 && bn.variance(oc) + FoldEps(bn) > 0.0 {
      FoldedIsNormed(e, r.g, w, b, bn, root, n, oc, oh, ow);
      PlainIs(e, r.g, w, b, n, oc, oh, ow);
      FoldEquation(bn, FoldEps(bn), root, oc, PlainAt(e, r.g, w, b, n, oc, oh, ow));
    }
  }

  /** Folds pad and batch norm into the convolution. Where the fold is harmless, what is emitted is the
      chain it stands for. */
  method FoldConv(g: Geometry, w: Weights, b: Option<PerChannel>, pad: Option<PadNode>, bn: Option<BatchNorm>, root: real -> real)
    returns (r: Conv, padStays: bool)
    ensures r == Emitted(g, w, b, pad, bn, root) && padStays == Stays(pad)
    ensures forall x, oc :: Usual(x, g, pad) && FoldIsHarmless(pad, bn, oc) ==> ChainRightFor(r, padStays, x, g, w, b, pad, bn, root, oc)
    ensures bn.Some? && IsRoot(root) ==> forall e, n, oc, oh, ow :: EmitsNormed(r, e, w, b, bn.value, root, n, oc, oh, ow)
  {
    var weights, bias, geometry := w, BiasOr0(b), g;
    if bn.Some? {
      weights := FoldWeights(w, bn.value, root);
      bias := FoldBias(b, bn.value, root);
    }
    padStays := false;
    if pad.Some? {
      var fold := FoldPad(pad.value);
      if fold.Widened? {
        geometry := geometry.(ph := geometry.ph + PadAt(pad.value, 2), pw := geometry.pw + PadAt(pad.value, 0));
      }
      padStays := fold.Separate?;
    }
    r := Conv(geometry, weights, bias);
    hide FoldPad, FoldWeights, FoldBias, PadAt, FoldIsHarmless, Usual, ChainRightFor, EmitsNormed, IsRoot;
    forall e, n, oc, oh, ow | bn.Some? && IsRoot(root)
      ensures EmitsNormed(r, e, w, b, bn.value, root, n, oc, oh, ow)
    {
      EmittedNormalises(r, e, w, b, bn.value, root, n, oc, oh, ow);
    }
    forall x, oc | Usual(x, g, pad) && FoldIsHarmless(pad, bn, oc)
      ensures ChainRightFor(r, padStays, x, g, w, b, pad, bn, root, oc)
    {
      HarmlessChain(x, g, w, b, pad, bn, root, oc);
    }
  }

  // ---------------------------------------------------------------- when the chain survives

  /** Normalising y and z alike wherever they are shifted to: same slope, same place. */
  lemma LinesAgree(bn: BatchNorm, root: real -> real, oc: int, y: real, z: real, e1: real, e2: real)
    requires ScaleWith(bn, e1, root, oc) != 0.0
    requires NormedWith(bn, e2, root, oc, bn.mean(oc) - y + z) == NormedWith(bn, e1, root, oc, bn.mean(oc) - y + y)
    requires NormedWith(bn, e2, root, oc, bn.mean(oc) - y + 1.0 + z) == NormedWith(bn, e1, root, oc, bn.mean(oc) - y + 1.0 + y)
    ensures ScaleWith(bn, e1, root, oc) == ScaleWith(bn, e2, root, oc) && y == z
  {
    var s1, s2 := ScaleWith(bn, e1, root, oc), ScaleWith(bn, e2, root, oc);
    hide ScaleWith;
    assert (z - y) * s2 == 0.0;
    assert (z - y + 1.0) * s2 == s1;
    assert (z - y + 1.0) * s2 == (z - y) * s2 + s2;
  }

  lemma ConvIs(x: Image, g: Geometry, w: Weights, b: PerChannel, n: int, oc: int, oh: int, ow: int)
    requires g.kh > 0 && g.kw > 0
    ensures ConvAt(x, g, w, b, n, oc, oh, ow) == b(oc) + Sum(x, g, w, n, oc, oh, ow)
  {
    hide Window;
  }

  /** The convolution without its bias. */
  ghost function Sum(x: Image, g: Geometry, w: Weights, n: int, oc: int, oh: int, ow: int): real
    requires g.kh > 0 && g.kw > 0
  {
    Window(x, g, w, n, oc, oh, ow, g.icPerGroup * g.kh * g.kw)
  }

  ghost function EmittedG(g: Geometry, pad: Option<PadNode>): (h: Geometry)
    ensures h.kh == g.kh && h.kw == g.kw
  {
    if pad.Some? then EmittedGeometry(g, pad.value) else g
  }

  function Constantly(v: real): PerChannel { (oc: int) => v }

  lemma ShownAt(pad: Option<PadNode>, bn: Option<BatchNorm>, root: real -> real, x: Image, g: Geometry, w: Weights, b: Option<PerChannel>,
                n: int, oc: int, oh: int, ow: int)
    requires ChainRight(pad, bn, root, oc) && Usual(x, g, pad) && IsOutput(g, InFront(x, pad), n, oc, oh, ow)
    ensures var r := Emitted(g, w, b, pad, bn, root);
      && r.g.kh > 0 && r.g.kw > 0 && r.g.sh > 0 && r.g.sw > 0 && SameShape(g, InFront(x, pad), r.g, EmittedImage(x, pad, Stays(pad)))
      && ConvAt(EmittedImage(x, pad, Stays(pad)), r.g, r.w, r.b, n, oc, oh, ow) == ChainAt(x, g, w, b, pad, bn, root, n, oc, oh, ow)
  {
    assert Legal(g);
    hide Emitted, EmittedImage, Stays, ConvAt, ChainAt, InFront, Usual, IsOutput, SameShape, Legal;
    assert ChainRightFor(Emitted(g, w, b, pad, bn, root), Stays(pad), x, g, w, b, pad, bn, root, oc);
  }

  /** A right chain with a constant bias. */
  lemma Shifted(pad: Option<PadNode>, bn: BatchNorm, root: real -> real, x: Image, g: Geometry, w: Weights, n: int, oc: int, oh: int, ow: int, v: real)
    requires ChainRight(pad, Some(bn), root, oc) && Usual(x, g, pad) && IsOutput(g, InFront(x, pad), n, oc, oh, ow)
    ensures NormedWith(bn, FoldEps(bn), root, oc, v + Sum(EmittedImage(x, pad, Stays(pad)), EmittedG(g, pad), w, n, oc, oh, ow))
         == NormedWith(bn, bn.eps, root, oc, v + Sum(InFront(x, pad), g, w, n, oc, oh, ow))
  {
    var b := Some(Constantly(v));
    var r, e, p := Emitted(g, w, b, pad, Some(bn), root), EmittedImage(x, pad, Stays(pad)), InFront(x, pad);
    ShownAt(pad, Some(bn), root, x, g, w, b, n, oc, oh, ow);
    EmittedConv(x, g, w, b, pad, Some(bn), root, n, oc, oh, ow);
    assert BiasOr0(b)(oc) == v && r.g == EmittedG(g, pad);
    ChainIs(x, g, w, b, pad, Some(bn), root, n, oc, oh, ow);
    hide *;
    ConvIs(e, EmittedG(g, pad), w, BiasOr0(b), n, oc, oh, ow);
    ConvIs(p, g, w, BiasOr0(b), n, oc, oh, ow);
  }

  /** Where the channel has a gain, a right chain has the right slope and the right sums. */
  lemma ChainShows(pad: Option<PadNode>, bn: BatchNorm, root: real -> real, x: Image, g: Geometry, w: Weights, n: int, oc: int, oh: int, ow: int)
    requires ChainRight(pad, Some(bn), root, oc) && Usual(x, g, pad) && IsOutput(g, InFront(x, pad), n, oc, oh, ow)
    requires ScaleWith(bn, bn.eps, root, oc) != 0.0
    ensures ScaleWith(bn, bn.eps, root, oc) == ScaleWith(bn, FoldEps(bn), root, oc)
    ensures Sum(InFront(x, pad), g, w, n, oc, oh, ow) == Sum(EmittedImage(x, pad, Stays(pad)), EmittedG(g, pad), w, n, oc, oh, ow)
  {
    var y, z := Sum(InFront(x, pad), g, w, n, oc, oh, ow), Sum(EmittedImage(x, pad, Stays(pad)), EmittedG(g, pad), w, n, oc, oh, ow);
    var m := bn.mean(oc);
    hide *;
    Shifted(pad, bn, root, x, g, w, n, oc, oh, ow, m - y);
    Shifted(pad, bn, root, x, g, w, n, oc, oh, ow, m - y + 1.0);
    LinesAgree(bn, root, oc, y, z, bn.eps, FoldEps(bn));
  }

  lemma ChainShape(pad: PadNode, bn: Option<BatchNorm>, root: real -> real, oc: int, x: Image, g: Geometry)
    requires ChainRight(Some(pad), bn, root, oc) && Usual(x, g, Some(pad))
    ensures SameShape(g, PaddedBy(x, pad), EmittedGeometry(g, pad), EmittedInput(x, pad))
  {
    assert Legal(g);
    var w, b := Pick(0), Some(NO_BIAS);
    assert Emitted(g, w, b, Some(pad), bn, root).g == EmittedGeometry(g, pad);
    SomeImages(x, Some(pad));
    assert InFront(x, Some(pad)) == PaddedBy(x, pad);
    hide EmittedImage, EmittedInput, PaddedBy, Stays, Usual, SameShape, Legal, Emitted, InFront, EmittedGeometry;
    assert ChainRightFor(Emitted(g, w, b, Some(pad), bn, root), Stays(Some(pad)), x, g, w, b, Some(pad), bn, root, oc);
  }

  lemma ChainGivesPad(pad: PadNode, bn: BatchNorm, root: real -> real, oc: int)
    requires ChainRight(Some(pad), Some(bn), root, oc) && ScaleWith(bn, bn.eps, root, oc) != 0.0
    ensures PadRight(pad, oc)
  {
    forall x, g, w, b | Legal(g) && Allowed(x, pad) && Accepts(g, PaddedBy(x, pad))
      ensures PadRightFor(pad, oc, x, g, w, b)
    {
      var p, e, h := PaddedBy(x, pad), EmittedInput(x, pad), EmittedGeometry(g, pad);
      SomeImages(x, Some(pad));
      assert InFront(x, Some(pad)) == p && EmittedG(g, Some(pad)) == h;
      assert Usual(x, g, Some(pad));
      hide EmittedImage, EmittedInput, PaddedBy, Stays, Usual, SameShape, Allowed, ChainRight, EmittedGeometry, ScaleWith, Sum, ConvAt, EmittedG, InFront;
      ChainShape(pad, Some(bn), root, oc, x, g);
      forall n, oh, ow | IsOutput(g, p, n, oc, oh, ow)
        ensures SameAt(p, e, g, h, w, b, n, oc, oh, ow)
      {
        ChainShows(Some(pad), bn, root, x, g, w, n, oc, oh, ow);
        ConvIs(p, g, w, b, n, oc, oh, ow);
        ConvIs(e, h, w, b, n, oc, oh, ow);
      }
    }
  }

  lemma PlainGivesPad(pad: PadNode, root: real -> real, oc: int)
    requires ChainRight(Some(pad), None, root, oc)
    ensures PadRight(pad, oc)
  {
    forall x, g, w, b | Legal(g) && Allowed(x, pad) && Accepts(g, PaddedBy(x, pad))
      ensures PadRightFor(pad, oc, x, g, w, b)
    {
      var p, e, h := PaddedBy(x, pad), EmittedInput(x, pad), EmittedGeometry(g, pad);
      SomeImages(x, Some(pad));
      var r := Emitted(g, w, Some(b), Some(pad), None, root);
      assert InFront(x, Some(pad)) == p && r == Conv(h, w, b);
      assert Usual(x, g, Some(pad));
      hide EmittedImage, EmittedInput, PaddedBy, Stays, Usual, SameShape, Allowed, ChainRight, EmittedGeometry, ConvAt, InFront, Emitted;
      ChainShape(pad, None, root, oc, x, g);
      forall n, oh, ow | IsOutput(g, p, n, oc, oh, ow)
        ensures SameAt(p, e, g, h, w, b, n, oc, oh, ow)
      {
        ShownAt(Some(pad), None, root, x, g, w, Some(b), n, oc, oh, ow);
      }
    }
  }

  /** An image that the pad is defined on, and a kernel with an output. */
  lemma SomeOutput(pad: Option<PadNode>, oc: nat) returns (x: Image, g: Geometry)
    ensures Usual(x, g, pad) && IsOutput(g, InFront(x, pad), 0, oc, 0, 0)
    ensures pad.Some? ==> Big(pad.value, x)
  {
    if pad.Some? {
      x := Ones(2 * Reach(pad.value));
      BigAllowed(pad.value, x);
      InnerFits(pad.value, 0); InnerFits(pad.value, 2); InnerFits(pad.value, 4); InnerFits(pad.value, 6);
    } else {
      x := Ones(1);
    }
    var p := InFront(x, pad);
    assert p.batch > 0 && p.channels > 0 && p.h > 0 && p.w > 0 by { hide PadAt, Inner; }
    g := Probe(oc, p.channels, 0);
    hide PaddedBy, Allowed, Reach, PadAt, Inner;
  }

  lemma ShapeNeeded(pad: Option<PadNode>, bn: Option<BatchNorm>, root: real -> real, oc: nat)
    requires ChainRight(pad, bn, root, oc)
    ensures ShapeKept(pad)
  {
    if pad.Some? && !AllZero(pad.value.pads) {
      var x, g := SomeOutput(pad, oc);
      ChainShape(pad.value, bn, root, oc, x, g);
      BigAllowed(pad.value, x);
      hide ChainRight, PaddedBy, EmittedInput, EmittedGeometry, Usual, Allowed, PadAt, AllZero, Reach, InFront, OutH, OutW, IsOutput;
    }
  }

  lemma SlopeNeeded(pad: Option<PadNode>, bn: BatchNorm, root: real -> real, oc: nat)
    requires ChainRight(pad, Some(bn), root, oc) && ScaleWith(bn, bn.eps, root, oc) != 0.0
    ensures ScaleWith(bn, bn.eps, root, oc) == ScaleWith(bn, FoldEps(bn), root, oc)
  {
    var x, g := SomeOutput(pad, oc);
    hide *;
    ChainShows(pad, bn, root, x, g, Pick(0), 0, oc, 0, 0);
  }

  lemma GainMeansScale(bn: BatchNorm, root: real -> real, oc: int)
    requires IsRoot(root) && bn.variance(oc) + bn.eps > 0.0 && bn.gamma(oc) != 0.0
    ensures ScaleWith(bn, bn.eps, root, oc) != 0.0
  {
    var r := root(bn.variance(oc) + bn.eps);
    assert bn.gamma(oc) == (bn.gamma(oc) / r) * r;
  }

  /** The exact condition for the chain: in a channel, what is emitted is what pad, convolution and
      batch norm computed, for every image and kernel, when and only when the fold is harmless. */
  lemma FoldIsRightIff(pad: Option<PadNode>, bn: Option<BatchNorm>, root: real -> real, oc: nat)
    requires (pad.Some? ==> Pairs(pad.value)) && IsRoot(root) && Positive(bn, oc)
    ensures ChainRight(pad, bn, root, oc) <==> FoldIsHarmless(pad, bn, oc)
  {
    if FoldIsHarmless(pad, bn, oc) {
      hide FoldIsHarmless, Usual, ChainRightFor, Emitted, Stays;
      forall x, g, w, b | Usual(x, g, pad)
        ensures Legal(g) && ChainRightFor(Emitted(g, w, b, pad, bn, root), Stays(pad), x, g, w, b, pad, bn, root, oc)
      {
        HarmlessChain(x, g, w, b, pad, bn, root, oc);
      }
    }
    if ChainRight(pad, bn, root, oc) {
      ShapeNeeded(pad, bn, root, oc);
      hide ChainRight, Harmless, IsRoot, ShapeKept, PadRight;
      if bn.None? {
        if pad.Some? {
          PlainGivesPad(pad.value, root, oc);
          PadIsRightIff(pad.value, oc);
        }
      } else if bn.value.gamma(oc) != 0.0 {
        GainMeansScale(bn.value, root, oc);
        SlopeNeeded(pad, bn.value, root, oc);
        SlopesAgree(bn.value, root, oc);
        if pad.Some? {
          ChainGivesPad(pad.value, bn.value, root, oc);
          PadIsRightIff(pad.value, oc);
        }
      }
    }
  }

  lemma SlopesAgree(bn: BatchNorm, root: real -> real, oc: int)
    requires IsRoot(root) && Positive(Some(bn), oc) && bn.gamma(oc) != 0.0
    requires ScaleWith(bn, bn.eps, root, oc) == ScaleWith(bn, FoldEps(bn), root, oc)
    ensures FoldEps(bn) == bn.eps
  {
    BatchNormFoldIsRightIff(bn, root, oc);
    hide ScaleWith, FoldEps, IsRoot;
  }

  // ---------------------------------------------------------------- pads that are folded all the same

  /** A square image of one channel with one value everywhere. */
  function Plane(v: real, size: nat): Image { Image((n: int, c: int, i: int, j: int) => v, 1, 1, size, size) }

  /** A pad that is folded, and the first output of the padded image and of what is emitted. */
  ghost predicate FoldGives(x: Image, pad: PadNode, p: nat, padded: real, emitted: real) {
    var g := Probe(0, 1, p);
    && FoldPad(pad).Widened? && Allowed(x, pad) && Accepts(g, PaddedBy(x, pad)) && IsOutput(g, PaddedBy(x, pad), 0, 0, 0, 0)
    && ConvAt(PaddedBy(x, pad), g, Pick(0), NO_BIAS, 0, 0, 0, 0) == padded
    && ConvAt(EmittedInput(x, pad), EmittedGeometry(g, pad), Pick(0), NO_BIAS, 0, 0, 0, 0) == emitted
  }

  lemma FirstOutput(x: Image, pad: PadNode, p: nat)
    requires FoldPad(pad).Widened? && Allowed(x, pad) && PaddedBy(x, pad).batch == 1 && PaddedBy(x, pad).channels == 1
    requires PaddedBy(x, pad).h > 0 && PaddedBy(x, pad).w > 0
    ensures FoldGives(x, pad, p, Read(PaddedBy(x, pad), 0, 0, 0 - p, 0 - p), Read(x, 0, 0, 0 - p - PadAt(pad, 2), 0 - p - PadAt(pad, 0)))
  {
    var g := Probe(0, 1, p);
    hide PaddedBy, Read, Allowed, PadAt, ConvAt;
    ProbeReads(PaddedBy(x, pad), g, 0, 0, 0, 0, 0);
    ProbeReads(x, EmittedGeometry(g, pad), 0, 0, 0, 0, 0);
  }

  /** The same pad on all four sides. */
  lemma Around(pad: PadNode, v: int, c: real, size: nat)
    requires pad.pads == [v, v, v, v] && v != 0 && size + 2 * v >= 1 && (pad.mode.Reflect? ==> v < size) && !pad.mode.Circular?
    ensures FoldPad(pad).Widened? && RestZero(pad) && PadAt(pad, 0) == PadAt(pad, 1) == PadAt(pad, 2) == PadAt(pad, 3) == v
    ensures Allowed(Plane(c, size), pad)
    ensures var p := PaddedBy(Plane(c, size), pad); p.batch == 1 && p.channels == 1 && p.h == size + 2 * v && p.w == size + 2 * v
  {
    assert pad.pads[0] == v;
    AroundAt(pad, v);
    hide PadAt, PaddedAt, AllZero, Symmetric;
  }

  lemma AroundAt(pad: PadNode, v: int)
    requires pad.pads == [v, v, v, v] && v != 0
    ensures !AllZero(pad.pads) && Symmetric(pad.pads)
    ensures PadAt(pad, 0) == PadAt(pad, 1) == PadAt(pad, 2) == PadAt(pad, 3) == v
    ensures PadAt(pad, 4) == PadAt(pad, 5) == PadAt(pad, 6) == PadAt(pad, 7) == 0
  {
    assert pad.pads[0] == v;
  }

  lemma PlaneIs(c: real, size: nat, i: int, j: int)
    ensures Read(Plane(c, size), 0, 0, i, j) == if 0 <= i < size && 0 <= j < size then c else 0.0
    ensures Plane(c, size).at(0, 0, i, j) == c && Plane(c, size).h == size == Plane(c, size).w
  {
  }

  /** The corner of the padded plane. */
  lemma Corner(pad: PadNode, v: int, c: real, size: nat)
    requires pad.pads == [v, v, v, v] && v > 0 && (pad.mode.Reflect? ==> v < size) && !pad.mode.Circular? && size > 0
    ensures Read(PaddedBy(Plane(c, size), pad), 0, 0, 0, 0) == if pad.mode.Constant? then pad.value else c
  {
    var x := Plane(c, size);
    Around(pad, v, c, size);
    CornerSource(pad, 2, size);
    CornerSource(pad, 0, size);
    hide PadAt, SourceOf, PaddedBy, RestZero, Read, Resized, FoldPad, Allowed;
    PlaneIs(c, size, 0, 0);
    CornerSize(pad, v, size);
    PlaneRead(x, pad, 0, 0, 0, 0);
  }

  lemma CornerSource(pad: PadNode, k: nat, size: nat)
    requires PadAt(pad, k) > 0 && size > 0
    ensures SourceOf(pad, k, 0, size).Some? <==> !pad.mode.Constant?
  {
    hide PadAt;
  }

  lemma CornerSize(pad: PadNode, v: int, size: nat)
    requires PadAt(pad, 0) == PadAt(pad, 1) == PadAt(pad, 2) == PadAt(pad, 3) == v && v > 0
    ensures Resized(pad, 2, size) > 0 && Resized(pad, 0, size) > 0
  {
    hide PadAt;
  }

  /** The fold does not look at the value: a one-pixel image padded by one with ones loses them. */
  lemma NonzeroPadIsLost()
    ensures FoldGives(Plane(0.0, 1), PadNode([1, 1, 1, 1], Constant, 1.0), 0, 1.0, 0.0)
  {
    var pad := PadNode([1, 1, 1, 1], Constant, 1.0);
    hide *;
    Around(pad, 1, 0.0, 1);
    Corner(pad, 1, 0.0, 1);
    PlaneIs(0.0, 1, -1, -1);
    FirstOutput(Plane(0.0, 1), pad, 0);
  }

  /** Nor at the sign: an image of ones, cropped by one and convolved with padding one, has a zero at
      its edge; the folded convolution reads what was cropped. */
  lemma CroppedPixelsComeBack()
    ensures FoldGives(Plane(1.0, 3), PadNode([-1, -1, -1, -1], Constant, 0.0), 1, 0.0, 1.0)
  {
    var pad := PadNode([-1, -1, -1, -1], Constant, 0.0);
    hide *;
    Around(pad, -1, 1.0, 3);
    OutsideIsZero(PaddedBy(Plane(1.0, 3), pad), -1, -1);
    PlaneIs(1.0, 3, 0, 0);
    FirstOutput(Plane(1.0, 3), pad, 1);
  }

  lemma OutsideIsZero(x: Image, i: int, j: int)
    requires i < 0
    ensures Read(x, 0, 0, i, j) == 0.0
  {
  }

  /** Nor at the mode: what was reflected becomes zero. */
  lemma ReflectionIsLost()
    ensures FoldGives(Plane(1.0, 3), PadNode([1, 1, 1, 1], Reflect, 0.0), 0, 1.0, 0.0)
  {
    var pad := PadNode([1, 1, 1, 1], Reflect, 0.0);
    hide *;
    Around(pad, 1, 1.0, 3);
    Corner(pad, 1, 1.0, 3);
    PlaneIs(1.0, 3, -1, -1);
    FirstOutput(Plane(1.0, 3), pad, 0);
  }

  /** Nor behind the fourth pad: three channels that the convolution reads are not there. */
  lemma AddedChannelsAreDropped(x: Image)
    ensures var pad := PadNode([1, 1, 1, 1, 0, 3], Constant, 0.0);
      FoldPad(pad).Widened? && PaddedBy(x, pad).channels == x.channels + 3 && EmittedInput(x, pad).channels == x.channels && !PadRight(pad, 0)
  {
    var pad := PadNode([1, 1, 1, 1, 0, 3], Constant, 0.0);
    assert PadAt(pad, 5) == 3 && pad.pads[0] == 1;
    PadIsRightIff(pad, 0);
  }

  /** A pad that is not folded is emitted with zeros, whatever its value. */
  lemma UnfoldedValueIsLost()
    ensures var pad := PadNode([1, 0, 0, 0], Constant, 1.0); FoldPad(pad).Separate? && !PadRight(pad, 0)
  {
    var pad := PadNode([1, 0, 0, 0], Constant, 1.0);
    assert pad.pads[0] == 1 && pad.pads[1] == 0;
    PadIsRightIff(pad, 0);
  }

  /** A layer with a gain whose constant is passed by position, and is not the one the fold assumes. */
  lemma PositionalConstantIsWrong(root: real -> real)
    requires IsRoot(root)
    ensures var bn := BatchNorm(oc => 1.0, oc => 0.0, oc => 0.0, oc => 1.0, 0.001, None);
      exists y :: NormedAt(bn, root, 0, y) != NormedWith(bn, FoldEps(bn), root, 0, y)
  {
    var bn := BatchNorm(oc => 1.0, oc => 0.0, oc => 0.0, oc => 1.0, 0.001, None);
    BatchNormFoldIsRightIff(bn, root, 0);
  }

  // ---------------------------------------------------------------- who else reads the convolution

  /** A reader of the convolution's result. */
  datatype User = User(name: Name, isBatchNorm: bool)

  /** The first batch norm among the readers. */
  function FindBnUser(users: seq<User>): (r: Option<User>)
    ensures r.Some? ==> r.value in users && r.value.isBatchNorm
    ensures r.None? ==> forall u :: u in users ==> !u.isBatchNorm
  {
    if users == [] then None else if users[0].isBatchNorm then Some(users[0]) else FindBnUser(users[1..])
  }

  /** The tensor the emitted convolution writes. */
  function Written(conv: Name, users: seq<User>): Name {
    var u := FindBnUser(users);
    if u.Some? then u.value.name else conv
  }

  /** A batch norm emits nothing and counts on its own tensor; any other reader reads the convolution's. */
  predicate Served(conv: Name, users: seq<User>, u: User) {
    Written(conv, users) == if u.isBatchNorm then u.name else conv
  }

  /** Every reader finds its tensor exactly when no reader is a batch norm, or the only one is. With a
      batch norm, every other reader is left with a tensor that is not its own or that nobody writes. */
  lemma ReadersServedIff(conv: Name, users: seq<User>)
    requires forall i, j :: 0 <= i < j < |users| ==> users[i].name != users[j].name
    requires forall u :: u in users ==> u.name != conv
    ensures (forall u :: u in users ==> Served(conv, users, u)) <==>
      (forall u :: u in users ==> !u.isBatchNorm) || |users| == 1
    ensures var f := FindBnUser(users); f.Some? ==> forall u :: u in users && u != f.value ==> !Served(conv, users, u)
  {
    var f := FindBnUser(users);
    if f.Some? && |users| > 1 {
      var other := if users[0] == f.value then users[1] else users[0];
      assert other in users && !Served(conv, users, other);
    } else if f.Some? {
      assert users == [users[0]] && users[0] == f.value;
    }
  }
}
