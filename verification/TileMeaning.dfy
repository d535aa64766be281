/** The tiles of a split op hold its cells (pipeline/apply_split_hint.py).

    Each tile is run as the op it is: its own narrowed shape entries give the sizes, the recorded
    offset moves its parameters, and its result is compared with the unsplit op's. */
module TileMeaning {
  import opened Ir
  import opened Names
  import T = Tiles
  import S = Split
  import opened SplitKernels

  /** What an op makes of an environment, as integers. */
  ghost function Made(k: Located, o: Op, e: Env): seq<int>
    requires o.outputs != []
  {
    Ints(Read(Exec(k(OffsetOf(o)), o, e), o.outputs[0]))
  }

  ghost predicate MakesNumbers(k: Located, o: Op, e: Env)
    requires o.outputs != []
  {
    Read(Exec(k(OffsetOf(o)), o, e), o.outputs[0]) == Nums(Made(k, o, e))
  }

  /** `part` is `width` channels of `whole` from channel `off` on. */
  ghost predicate HoldsCells(part: seq<int>, whole: seq<int>, outer: nat, width: nat, full: nat, inner: nat, off: nat) {
    && |part| == outer * width * inner && |whole| == outer * full * inner
    && forall a: nat, j: nat, r: nat :: a < outer && j < width && r < inner ==>
      T.At(part, T.Position(width, inner, a, j, r)) == T.At(whole, T.Position(full, inner, a, off + j, r))
  }

  /** A tile, run as the op it is, makes the channels of the whole op's result that start at its
      recorded offset and are as many as its own shape says. */
  ghost predicate HoldsItsPart(k: Located, o: Op, tile: Op, e: Env) {
    && o.outputs != [] && tile.outputs != [] && OffsetOf(tile) >= 0
    && Geometry(tile).0 == Geometry(o).0 && Geometry(tile).2 == Geometry(o).2
    && HoldsCells(Made(k, tile, e), Made(k, o, e), Geometry(o).0, Geometry(tile).1, Geometry(o).1, Geometry(o).2, OffsetOf(tile))
  }

  // ---------------------------------------------------------------- joining

  function CellsOf(s: seq<int>, channels: nat, inner: nat): (nat, nat, nat) -> int {
    (o: nat, c: nat, r: nat) => T.At(s, T.Position(channels, inner, o, c, r))
  }

  /** A tensor laid out from its own cells is itself. */
  lemma LaidReads(outer: nat, channels: nat, inner: nat, s: seq<int>)
    requires |s| == outer * channels * inner
    ensures T.Laid(outer, channels, inner, CellsOf(s, channels, inner)) == s
  {
    var laid := T.Laid(outer, channels, inner, CellsOf(s, channels, inner));
    forall i | 0 <= i < |s|
      ensures laid[i] == s[i]
    {
      T.PositiveParts(outer, channels, inner, i);
      T.CellIs(channels, inner, CellsOf(s, channels, inner), i);
      var row := i / inner;
      assert row / channels * channels + row % channels == row;
      assert row * inner + i % inner == i;
    }
  }

  /** Tiles that hold their cells join to the whole. */
  lemma CellsJoin(outer: nat, tiles: nat, width: nat, inner: nat, whole: seq<int>, parts: seq<seq<int>>)
    requires tiles >= 1 && width >= 1 && |parts| == tiles && |whole| == outer * (tiles * width) * inner
    requires forall t :: 0 <= t < tiles ==> HoldsCells(parts[t], whole, outer, width, tiles * width, inner, t * width)
    ensures T.Laid(outer, tiles * width, inner, T.Joined(parts, width, inner)) == whole
  {
    hide *;
    var cells := CellsOf(whole, tiles * width, inner);
    forall t: nat, o: nat, j: nat, r: nat | t < tiles && o < outer && j < width && r < inner
      ensures T.At(parts[t], T.Position(width, inner, o, j, r)) == cells(o, t * width + j, r)
    {
      assert HoldsCells(parts[t], whole, outer, width, tiles * width, inner, t * width);
      CellIn(parts[t], whole, outer, width, tiles * width, inner, t * width, o, j, r);
    }
    T.HoldsParts(outer, tiles, width, inner, cells, parts);
    T.JoinIsWhole(outer, tiles, width, inner, cells, parts);
    LaidReads(outer, tiles * width, inner, whole);
  }

  lemma CellIn(part: seq<int>, whole: seq<int>, outer: nat, width: nat, full: nat, inner: nat, off: nat, a: nat, j: nat, r: nat)
    requires HoldsCells(part, whole, outer, width, full, inner, off) && a < outer && j < width && r < inner
    ensures T.At(part, T.Position(width, inner, a, j, r)) == CellsOf(whole, full, inner)(a, off + j, r)
  {
    hide T.At, T.Position;
  }

  // ---------------------------------------------------------------- parameters

  lemma SliceIsRows(w: seq<int>, k: nat, width: nat, t: nat)
    requires (t * width + width) * k <= |w|
    ensures Slice(w, t * width * k, width * k) == T.RowSlice(w, k, width, t)
  {
    assert (t * width + width) * k == t * width * k + width * k;
  }

  lemma SliceIsAll<X>(s: seq<X>, n: nat)
    requires |s| == n
    ensures Slice(s, 0, n) == s
  {
  }

  lemma NoOffset(k: nat)
    ensures 0 * k == 0
  {
  }

  // ---------------------------------------------------------------- one op

  lemma PlainMakes(k: Located, o: Op, e: Env, v: Value)
    requires o.subOps == [] && |o.inputs| == 1 && |o.outputs| == 1
    requires k(OffsetOf(o))(o.body, [Read(e, o.inputs[0])]) == [v]
    ensures Read(Exec(k(OffsetOf(o)), o, e), o.outputs[0]) == v
  {
    assert ReadAll(e, o.inputs) == [Read(e, o.inputs[0])];
    assert o.outputs == [o.outputs[0]];
    WriteOne(e, o.outputs[0], v);
  }

  lemma LinearMakes(k: Located, sim: Simulator, o: Op, e: Env)
    requires RunsLinear(k, sim) && o.body.kind == "linear_s8" && o.subOps == [] && |o.inputs| == 1 && |o.outputs| == 1
    ensures Made(k, o, e) == LinearKernel(sim, o.body, OffsetOf(o), Ints(Read(e, o.inputs[0]))) && MakesNumbers(k, o, e)
  {
    hide LinearKernel, Exec, Nums, Ints;
    var v := Read(e, o.inputs[0]);
    PlainMakes(k, o, e, Nums(LinearKernel(sim, o.body, OffsetOf(o), Ints(v))));
    IntsOfNums(LinearKernel(sim, o.body, OffsetOf(o), Ints(v)));
  }

  lemma ConvMakes(k: Located, sim: Simulator, o: Op, e: Env)
    requires RunsConv(k, sim) && o.body.kind == "conv2d_s8" && ConvSized(o.body) && o.subOps == [] && |o.inputs| == 1 && |o.outputs| == 1
    ensures Made(k, o, e) == ConvKernel(sim, o.body, OffsetOf(o), Ints(Read(e, o.inputs[0]))) && MakesNumbers(k, o, e)
  {
    hide ConvKernel, Exec, Nums, Ints, ConvSized;
    var v := Read(e, o.inputs[0]);
    PlainMakes(k, o, e, Nums(ConvKernel(sim, o.body, OffsetOf(o), Ints(v))));
    IntsOfNums(ConvKernel(sim, o.body, OffsetOf(o), Ints(v)));
  }

  // ---------------------------------------------------------------- a linear layer

  lemma LinearCellsHeld(x: seq<int>, w: seq<int>, b: seq<int>, sh: T.LinearShape, q: T.Quant, tiles: nat, width: nat, t: nat)
    requires |w| == sh.n * sh.k && |b| == sh.n && width * tiles == sh.n && t < tiles
    ensures |T.LinearTiles(x, w, b, sh, q, tiles, width)| == tiles
    ensures HoldsCells(T.LinearTiles(x, w, b, sh, q, tiles, width)[t], T.LinearOut(x, w, b, sh, q), sh.m, width, sh.n, 1, t * width)
  {
    hide *;
    T.LinearPartsCount(x, w, b, sh, q, tiles, width);
    var part, whole := T.LinearTiles(x, w, b, sh, q, tiles, width)[t], T.LinearOut(x, w, b, sh, q);
    LinearLengths(x, w, b, sh, q, tiles, width, t);
    forall a: nat, j: nat, r: nat | a < sh.m && j < width && r < 1
      ensures T.At(part, T.Position(width, 1, a, j, r)) == T.At(whole, T.Position(sh.n, 1, a, t * width + j, r))
    {
      T.LinearPart(x, w, b, sh, q, tiles, width, t, a, j, r);
      T.SliceFits(sh.n, tiles, width, t, 1);
      T.LinearWhole(x, w, b, sh, q);
      T.LaidHolds(sh.m, sh.n, 1, T.LinearCells(x, w, b, sh, q), a, t * width + j, r);
    }
    ToHoldsCells(part, whole, sh.m, width, sh.n, 1, t * width);
  }

  lemma ToHoldsCells(part: seq<int>, whole: seq<int>, outer: nat, width: nat, full: nat, inner: nat, off: nat)
    requires |part| == outer * width * inner && |whole| == outer * full * inner
    requires forall a: nat, j: nat, r: nat :: a < outer && j < width && r < inner ==>
      T.At(part, T.Position(width, inner, a, j, r)) == T.At(whole, T.Position(full, inner, a, off + j, r))
    ensures HoldsCells(part, whole, outer, width, full, inner, off)
  {
    hide T.At, T.Position;
  }

  lemma LinearLengths(x: seq<int>, w: seq<int>, b: seq<int>, sh: T.LinearShape, q: T.Quant, tiles: nat, width: nat, t: nat)
    requires |w| == sh.n * sh.k && |b| == sh.n && width * tiles == sh.n && t < tiles
    ensures |T.LinearTiles(x, w, b, sh, q, tiles, width)| == tiles
    ensures |T.LinearTiles(x, w, b, sh, q, tiles, width)[t]| == sh.m * width * 1
    ensures |T.LinearOut(x, w, b, sh, q)| == sh.m * sh.n * 1
  {
    hide T.RowSlice, T.LinearCells;
    T.SliceFits(sh.n, tiles, width, t, sh.k);
    T.SliceFits(sh.n, tiles, width, t, 1);
  }

  lemma LinearTileKernel(sim: Simulator, body: Body, narrow: Body, tiles: nat, width: nat, t: nat, x: seq<int>)
    requires var sh := LinearShapeOf(body); |sim.weights(body.attrs).0| == sh.n * sh.k && |sim.weights(body.attrs).1| == sh.n && width * tiles == sh.n
    requires t < tiles && narrow == body.(shape := body.shape["N" := width])
    ensures var sh, w, b, q := LinearShapeOf(body), sim.weights(body.attrs).0, sim.weights(body.attrs).1, sim.quant(body.quant);
      && |T.LinearTiles(x, w, b, sh, q, tiles, width)| == tiles
      && LinearKernel(sim, narrow, t * width, x) == T.LinearTiles(x, w, b, sh, q, tiles, width)[t]
      && LinearKernel(sim, body, 0, x) == T.LinearOut(x, w, b, sh, q)
  {
    hide T.RowSlice, T.LinearOut, Slice;
    var sh, w, b := LinearShapeOf(body), sim.weights(body.attrs).0, sim.weights(body.attrs).1;
    assert LinearShapeOf(narrow) == sh.(n := width);
    T.SliceFits(sh.n, tiles, width, t, sh.k);
    T.SliceFits(sh.n, tiles, width, t, 1);
    SliceIsRows(w, sh.k, width, t);
    SliceIsRows(b, 1, width, t);
    assert t * width * 1 == t * width && width * 1 == width;
    NoOffset(sh.k);
    SliceIsAll(w, sh.n * sh.k);
    SliceIsAll(b, sh.n);
  }

  // ---------------------------------------------------------------- a convolution

  lemma ConvCellsHeld(x: seq<int>, w: seq<int>, b: seq<int>, s: T.ConvShape, q: T.Quant, tiles: nat, width: nat, t: nat)
    requires s.kh > 0 && s.kw > 0 && s.ow > 0 && |w| == s.oc * T.Taps(s) && |b| == s.oc && width * tiles == s.oc && t < tiles
    ensures |T.ConvTiles(x, w, b, s, q, tiles, width)| == tiles
    ensures HoldsCells(T.ConvTiles(x, w, b, s, q, tiles, width)[t], T.ConvOut(x, w, b, s, q), s.n, width, s.oc, s.oh * s.ow, t * width)
  {
    hide *;
    T.ConvPartsCount(x, w, b, s, q, tiles, width);
    var part, whole, inner := T.ConvTiles(x, w, b, s, q, tiles, width)[t], T.ConvOut(x, w, b, s, q), s.oh * s.ow;
    ConvLengths(x, w, b, s, q, tiles, width, t);
    forall a: nat, j: nat, r: nat | a < s.n && j < width && r < inner
      ensures T.At(part, T.Position(width, inner, a, j, r)) == T.At(whole, T.Position(s.oc, inner, a, t * width + j, r))
    {
      T.ConvPart(x, w, b, s, q, tiles, width, t, a, j, r);
      T.SliceFits(s.oc, tiles, width, t, 1);
      T.ConvWhole(x, w, b, s, q);
      T.LaidHolds(s.n, s.oc, inner, T.ConvCells(x, w, b, s, q), a, t * width + j, r);
    }
    ToHoldsCells(part, whole, s.n, width, s.oc, inner, t * width);
  }

  lemma ConvLengths(x: seq<int>, w: seq<int>, b: seq<int>, s: T.ConvShape, q: T.Quant, tiles: nat, width: nat, t: nat)
    requires s.kh > 0 && s.kw > 0 && s.ow > 0 && |w| == s.oc * T.Taps(s) && |b| == s.oc && width * tiles == s.oc && t < tiles
    ensures |T.ConvTiles(x, w, b, s, q, tiles, width)| == tiles
    ensures |T.ConvTiles(x, w, b, s, q, tiles, width)[t]| == s.n * width * (s.oh * s.ow)
    ensures |T.ConvOut(x, w, b, s, q)| == s.n * s.oc * (s.oh * s.ow)
  {
    hide T.RowSlice, T.ConvCells, T.Taps;
    T.SliceFits(s.oc, tiles, width, t, T.Taps(s));
    T.SliceFits(s.oc, tiles, width, t, 1);
  }

  lemma ConvTileKernel(sim: Simulator, body: Body, narrow: Body, tiles: nat, width: nat, t: nat, x: seq<int>)
    requires var s := ConvShapeOf(body); |sim.weights(body.attrs).0| == s.oc * T.Taps(s) && |sim.weights(body.attrs).1| == s.oc && width * tiles == s.oc
    requires ConvSized(body) && t < tiles && narrow == body.(shape := body.shape["OC" := width])
    ensures ConvSized(narrow)
    ensures var s, w, b, q := ConvShapeOf(body), sim.weights(body.attrs).0, sim.weights(body.attrs).1, sim.quant(body.quant);
      && |T.ConvTiles(x, w, b, s, q, tiles, width)| == tiles
      && ConvKernel(sim, narrow, t * width, x) == T.ConvTiles(x, w, b, s, q, tiles, width)[t]
      && ConvKernel(sim, body, 0, x) == T.ConvOut(x, w, b, s, q)
  {
    hide T.RowSlice, T.ConvOut, Slice;
    var s, w, b := ConvShapeOf(body), sim.weights(body.attrs).0, sim.weights(body.attrs).1;
    assert ConvShapeOf(narrow) == s.(oc := width);
    assert T.Taps(s.(oc := width)) == T.Taps(s);
    hide T.Taps;
    T.SliceFits(s.oc, tiles, width, t, T.Taps(s));
    T.SliceFits(s.oc, tiles, width, t, 1);
    SliceIsRows(w, T.Taps(s), width, t);
    SliceIsRows(b, 1, width, t);
    assert t * width * 1 == t * width && width * 1 == width;
    NoOffset(T.Taps(s));
    SliceIsAll(w, s.oc * T.Taps(s));
    SliceIsAll(b, s.oc);
  }

  // ---------------------------------------------------------------- plain tiles hold their cells

  /** What a plain tile shares with its op. */
  lemma PlainTileParts(o: Op, id: int, n: nat, dim: string, width: nat, t: nat)
    requires o.outputs != []
    ensures var tile := S.PlainTile(o, id, n, dim, width, t);
      && OffsetOf(tile) == t * width && tile.body == o.body.(shape := o.body.shape[dim := width])
      && tile.subOps == o.subOps && tile.inputs == o.inputs && |tile.outputs| == 1
  {
    hide TileName;
  }

  lemma LinearTileHolds(k: Located, sim: Simulator, o: Op, tile: Op, n: nat, width: nat, t: nat, e: Env)
    requires Interprets(k, sim) && OffsetOf(o) == 0 && t < n && o.body.kind == "linear_s8" && LinearFits(sim, o)
    requires width * n == LinearShapeOf(o.body).n
    requires OffsetOf(tile) == t * width && tile.body == o.body.(shape := o.body.shape["N" := width])
    requires tile.subOps == o.subOps && tile.inputs == o.inputs && |tile.outputs| == 1
    ensures HoldsItsPart(k, o, tile, e) && Geometry(tile).1 == width
  {
    hide *;
    LinearParts(k, sim, o);
    var sh, x := LinearShapeOf(o.body), Ints(Read(e, o.inputs[0]));
    LinearMakes(k, sim, o, e);
    LinearMakes(k, sim, tile, e);
    LinearTileKernel(sim, o.body, tile.body, n, width, t, x);
    LinearCellsHeld(x, sim.weights(o.body.attrs).0, sim.weights(o.body.attrs).1, sh, sim.quant(o.body.quant), n, width, t);
    LinearGeometry(o, tile, width);
    ToHoldsItsPart(k, o, tile, e);
  }

  lemma LinearGeometry(o: Op, tile: Op, width: nat)
    requires o.body.kind == "linear_s8" && tile.body == o.body.(shape := o.body.shape["N" := width])
    ensures var sh := LinearShapeOf(o.body); Geometry(o) == (sh.m, sh.n, 1) && Geometry(tile) == (sh.m, width, 1)
  {
  }

  lemma ConvGeometry(o: Op, tile: Op, width: nat)
    requires o.body.kind == "conv2d_s8" && tile.body == o.body.(shape := o.body.shape["OC" := width])
    ensures var s := ConvShapeOf(o.body); Geometry(o) == (s.n, s.oc, s.oh * s.ow) && Geometry(tile) == (s.n, width, s.oh * s.ow)
  {
  }

  lemma LinearParts(k: Located, sim: Simulator, o: Op)
    requires Interprets(k, sim) && LinearFits(sim, o)
    ensures RunsLinear(k, sim) && o.subOps == [] && |o.inputs| == 1 && |o.outputs| == 1
    ensures var sh := LinearShapeOf(o.body); |sim.weights(o.body.attrs).0| == sh.n * sh.k && |sim.weights(o.body.attrs).1| == sh.n
  {
    hide RunsLinear, RunsConv, RunsNorm, RunsAct;
  }

  lemma ConvParts(k: Located, sim: Simulator, o: Op)
    requires Interprets(k, sim) && ConvFits(sim, o)
    ensures RunsConv(k, sim) && o.subOps == [] && |o.inputs| == 1 && |o.outputs| == 1 && ConvSized(o.body) && o.body.kind == "conv2d_s8"
    ensures var s := ConvShapeOf(o.body); |sim.weights(o.body.attrs).0| == s.oc * T.Taps(s) && |sim.weights(o.body.attrs).1| == s.oc
    ensures var s := ConvShapeOf(o.body); s.kh > 0 && s.kw > 0 && s.ow > 0
  {
    hide RunsLinear, RunsConv, RunsNorm, RunsAct;
  }

  lemma ConvTileHolds(k: Located, sim: Simulator, o: Op, tile: Op, n: nat, width: nat, t: nat, e: Env)
    requires Interprets(k, sim) && OffsetOf(o) == 0 && t < n && ConvFits(sim, o)
    requires width * n == ConvShapeOf(o.body).oc
    requires OffsetOf(tile) == t * width && tile.body == o.body.(shape := o.body.shape["OC" := width])
    requires tile.subOps == o.subOps && tile.inputs == o.inputs && |tile.outputs| == 1
    ensures HoldsItsPart(k, o, tile, e) && Geometry(tile).1 == width
  {
    hide *;
    ConvParts(k, sim, o);
    var s, x := ConvShapeOf(o.body), Ints(Read(e, o.inputs[0]));
    ConvTileKernel(sim, o.body, tile.body, n, width, t, x);
    ConvMakes(k, sim, o, e);
    ConvMakes(k, sim, tile, e);
    ConvCellsHeld(x, sim.weights(o.body.attrs).0, sim.weights(o.body.attrs).1, s, sim.quant(o.body.quant), n, width, t);
    ConvGeometry(o, tile, width);
    ToHoldsItsPart(k, o, tile, e);
  }

  // ---------------------------------------------------------------- a fused convolution

  function EpilogueOf(sim: Simulator, subs: seq<Op>): T.Epilogue
    requires 2 <= |subs| <= 3
  {
    var norm := sim.norm(subs[1].body.quant);
    if |subs| == 2 then norm else Composed(sim.act(subs[2].body.quant), norm)
  }

  function Composed(act: int -> int, f: T.Epilogue): T.Epilogue {
    (scale: real, shift: real, v: int) => act(f(scale, shift, v))
  }

  /** What the stages make, one after the other. */
  function ChainKernel(sim: Simulator, subs: seq<Op>, off: int, x: seq<int>): seq<int>
    requires 2 <= |subs| <= 3 && ConvSized(subs[0].body)
  {
    var normed := NormKernel(sim, subs[1].body, off, ConvKernel(sim, subs[0].body, off, x));
    if |subs| == 2 then normed else ActKernel(sim, subs[2].body, normed)
  }

  lemma StageRuns(k: Kernels, s: Op, e: Env, v: Value)
    requires s.subOps == [] && |s.inputs| == 1 && |s.outputs| == 1 && k(s.body, [Read(e, s.inputs[0])]) == [v]
    ensures Exec(k, s, e) == e[s.outputs[0] := v]
  {
    assert ReadAll(e, s.inputs) == [Read(e, s.inputs[0])];
    assert s.outputs == [s.outputs[0]];
    WriteOne(e, s.outputs[0], v);
  }

  lemma ThreeRun(k: Kernels, a: Op, b: Op, c: Op, e: Env)
    ensures Run(k, [a, b], e) == Exec(k, b, Exec(k, a, e))
    ensures Run(k, [a, b, c], e) == Exec(k, c, Exec(k, b, Exec(k, a, e)))
  {
    hide Exec;
    assert [a, b][1..] == [b] && [a, b, c][1..] == [b, c] && [b, c][1..] == [c];
    RunOne(k, b, Exec(k, a, e));
    RunOne(k, c, Exec(k, b, Exec(k, a, e)));
  }

  lemma StageValue(k: Located, sim: Simulator, off: int, s: Op, e: Env)
    requires Interprets(k, sim) && s.subOps == [] && |s.inputs| == 1 && |s.outputs| == 1
    ensures var x := Ints(Read(e, s.inputs[0]));
      && (s.body.kind == "conv2d_s8" && ConvSized(s.body) ==> Exec(k(off), s, e) == e[s.outputs[0] := Nums(ConvKernel(sim, s.body, off, x))])
      && (s.body.kind == "batchnorm2d_s8" ==> Exec(k(off), s, e) == e[s.outputs[0] := Nums(NormKernel(sim, s.body, off, x))])
      && (s.body.kind == "silu_s8" ==> Exec(k(off), s, e) == e[s.outputs[0] := Nums(ActKernel(sim, s.body, x))])
  {
    hide ConvKernel, NormKernel, ActKernel, Exec, Nums, Ints, ConvSized;
    var v := Read(e, s.inputs[0]);
    if s.body.kind == "conv2d_s8" && ConvSized(s.body) {
      StageRuns(k(off), s, e, Nums(ConvKernel(sim, s.body, off, Ints(v))));
    } else if s.body.kind == "batchnorm2d_s8" {
      StageRuns(k(off), s, e, Nums(NormKernel(sim, s.body, off, Ints(v))));
    } else if s.body.kind == "silu_s8" {
      StageRuns(k(off), s, e, Nums(ActKernel(sim, s.body, Ints(v))));
    }
  }

  /** The stages of a chain, run in order, make what the kernels make of each other's results. */
  lemma ChainMakes(k: Located, sim: Simulator, o: Op, e: Env)
    requires Interprets(k, sim) && Chained(o)
    ensures Made(k, o, e) == ChainKernel(sim, o.subOps, OffsetOf(o), Ints(Read(e, o.subOps[0].inputs[0]))) && MakesNumbers(k, o, e)
  {
    hide Exec, Interprets, ConvKernel, NormKernel, ActKernel, Nums, Ints, ConvSized;
    var off, subs := OffsetOf(o), o.subOps;
    var a, b := subs[0], subs[1];
    var x := Ints(Read(e, a.inputs[0]));
    StageValue(k, sim, off, a, e);
    var e1 := Exec(k(off), a, e);
    var v1 := ConvKernel(sim, a.body, off, x);
    IntsOfNums(v1);
    StageValue(k, sim, off, b, e1);
    var e2 := Exec(k(off), b, e1);
    var v2 := NormKernel(sim, b.body, off, v1);
    assert Read(e2, b.outputs[0]) == Nums(v2);
    IntsOfNums(v2);
    SchedulesRead(k(off), o, e);
    if |subs| == 2 {
      assert subs == [a, b];
      ThreeRun(k(off), a, b, b, e);
    } else {
      var c := subs[2];
      StageValue(k, sim, off, c, e2);
      assert subs == [a, b, c];
      ThreeRun(k(off), a, b, c, e);
      IntsOfNums(ActKernel(sim, c.body, v2));
    }
  }

  lemma SchedulesRead(k: Kernels, o: Op, e: Env)
    requires o.subOps != [] && |o.outputs| == 1
    ensures Read(Exec(k, o, e), o.outputs[0]) == Read(Run(k, o.subOps, e), o.outputs[0])
  {
    var v := Read(Run(k, o.subOps, e), o.outputs[0]);
    hide Run;
    assert ReadAll(Run(k, o.subOps, e), o.outputs) == [v];
    assert o.outputs == [o.outputs[0]];
    WriteOne(e, o.outputs[0], v);
  }

  lemma NormCellsMatch(f: T.Epilogue, x: seq<int>, w: seq<int>, b: seq<int>, scale: seq<real>, shift: seq<real>, s: T.ConvShape, q: T.Quant,
                       o: nat, c: nat, r: nat)
    requires s.kh > 0 && s.kw > 0 && s.ow > 0 && o < s.n && c < s.oc && r < s.oh * s.ow
    ensures NormCells(f, scale, shift, s.oc, s.oh * s.ow, T.ConvOut(x, w, b, s, q))(o, c, r) == T.FusedCells(x, w, b, scale, shift, s, q, f)(o, c, r)
  {
    T.ConvWhole(x, w, b, s, q);
    hide T.ConvAt, T.ConvOut, T.Laid, T.Position, T.At;
    T.LaidHolds(s.n, s.oc, s.oh * s.ow, T.ConvCells(x, w, b, s, q), o, c, r);
  }

  /** Normalising a convolution's result is the normalised convolution. */
  lemma NormOfConv(f: T.Epilogue, x: seq<int>, w: seq<int>, b: seq<int>, scale: seq<real>, shift: seq<real>, s: T.ConvShape, q: T.Quant)
    requires s.kh > 0 && s.kw > 0 && s.ow > 0
    ensures T.Laid(s.n, s.oc, s.oh * s.ow, NormCells(f, scale, shift, s.oc, s.oh * s.ow, T.ConvOut(x, w, b, s, q)))
         == T.FusedOut(x, w, b, scale, shift, s, q, f)
  {
    hide *;
    var inner := s.oh * s.ow;
    var normed, fused := NormCells(f, scale, shift, s.oc, inner, T.ConvOut(x, w, b, s, q)), T.FusedCells(x, w, b, scale, shift, s, q, f);
    forall i: nat | i < s.n * s.oc * inner
      ensures s.oc > 0 && inner > 0 && T.Cell(s.oc, inner, normed, i) == T.Cell(s.oc, inner, fused, i)
    {
      T.PositiveParts(s.n, s.oc, inner, i);
      var o, c, r := T.Coordinates(s.n, s.oc, inner, normed, fused, i);
      NormCellsMatch(f, x, w, b, scale, shift, s, q, o, c, r);
    }
    LaidSame(s.n, s.oc, inner, normed, fused);
    T.FusedWhole(x, w, b, scale, shift, s, q, f);
  }

  lemma LaidSame(outer: nat, channels: nat, inner: nat, f: (nat, nat, nat) -> int, g: (nat, nat, nat) -> int)
    requires forall i: nat :: i < outer * channels * inner ==>
      channels > 0 && inner > 0 && T.Cell(channels, inner, f, i) == T.Cell(channels, inner, g, i)
    ensures T.Laid(outer, channels, inner, f) == T.Laid(outer, channels, inner, g)
  {
    hide T.Cell;
  }

  /** An activation over all elements is part of the epilogue. */
  lemma ActOfFused(act: int -> int, f: T.Epilogue, x: seq<int>, w: seq<int>, b: seq<int>, scale: seq<real>, shift: seq<real>,
                   s: T.ConvShape, q: T.Quant, n: nat, y: seq<int>)
    requires s.kh > 0 && s.kw > 0 && s.ow > 0 && n == s.n * s.oc * (s.oh * s.ow)
    requires |y| == n && forall i :: 0 <= i < n ==> y[i] == act(T.At(T.FusedOut(x, w, b, scale, shift, s, q, f), i))
    ensures y == T.FusedOut(x, w, b, scale, shift, s, q, Composed(act, f))
  {
    hide *;
    T.FusedWhole(x, w, b, scale, shift, s, q, f);
    T.FusedWhole(x, w, b, scale, shift, s, q, Composed(act, f));
    var plain, all := T.FusedCells(x, w, b, scale, shift, s, q, f), T.FusedCells(x, w, b, scale, shift, s, q, Composed(act, f));
    forall i: nat | i < n
      ensures y[i] == T.Laid(s.n, s.oc, s.oh * s.ow, all)[i]
    {
      T.PositiveParts(s.n, s.oc, s.oh * s.ow, i);
      LaidCell(s.n, s.oc, s.oh * s.ow, plain, i);
      LaidCell(s.n, s.oc, s.oh * s.ow, all, i);
      var o, c, r := T.Coordinates(s.n, s.oc, s.oh * s.ow, plain, all, i);
      ComposedCell(act, f, x, w, b, scale, shift, s, q, o, c, r);
    }
  }

  lemma LaidCell(outer: nat, channels: nat, inner: nat, at: (nat, nat, nat) -> int, i: nat)
    requires i < outer * channels * inner && channels > 0 && inner > 0
    ensures T.Laid(outer, channels, inner, at)[i] == T.Cell(channels, inner, at, i)
    ensures T.At(T.Laid(outer, channels, inner, at), i) == T.Cell(channels, inner, at, i)
  {
    hide T.Cell;
  }

  lemma ComposedCell(act: int -> int, f: T.Epilogue, x: seq<int>, w: seq<int>, b: seq<int>, scale: seq<real>, shift: seq<real>,
                     s: T.ConvShape, q: T.Quant, o: nat, c: nat, r: nat)
    requires s.kh > 0 && s.kw > 0 && s.ow > 0
    ensures T.FusedCells(x, w, b, scale, shift, s, q, Composed(act, f))(o, c, r) == act(T.FusedCells(x, w, b, scale, shift, s, q, f)(o, c, r))
  {
    hide T.ConvAt;
  }

  /** A chain computes a fused convolution of its slices of the parameters. */
  lemma ChainIsFused(sim: Simulator, subs: seq<Op>, off: int, x: seq<int>)
    requires StagesSized(subs)
    ensures var s, w, b := ConvShapeOf(subs[0].body), sim.weights(subs[0].body.attrs).0, sim.weights(subs[0].body.attrs).1;
      var scale, shift := sim.channels(subs[1].body.attrs).0, sim.channels(subs[1].body.attrs).1;
      s.kh > 0 && s.kw > 0 && s.ow > 0 &&
      ChainKernel(sim, subs, off, x) ==
        T.FusedOut(x, Slice(w, off * T.Taps(s), s.oc * T.Taps(s)), Slice(b, off, s.oc), Slice(scale, off, s.oc), Slice(shift, off, s.oc),
                   s, sim.quant(subs[0].body.quant), EpilogueOf(sim, subs))
  {
    var s := ConvShapeOf(subs[0].body);
    hide T.ConvOut, T.FusedOut, T.Laid, NormCells, Slice, T.Taps, Dim;
    assert s.kh > 0 && s.kw > 0 && s.ow > 0 by { assert ConvSized(subs[0].body); }
    var w, b := Slice(sim.weights(subs[0].body.attrs).0, off * T.Taps(s), s.oc * T.Taps(s)), Slice(sim.weights(subs[0].body.attrs).1, off, s.oc);
    var scale, shift := Slice(sim.channels(subs[1].body.attrs).0, off, s.oc), Slice(sim.channels(subs[1].body.attrs).1, off, s.oc);
    var q, f := sim.quant(subs[0].body.quant), sim.norm(subs[1].body.quant);
    var conv := ConvKernel(sim, subs[0].body, off, x);
    assert conv == T.ConvOut(x, w, b, s, q);
    NormOfConv(f, x, w, b, scale, shift, s, q);
    var normed := NormKernel(sim, subs[1].body, off, conv);
    assert normed == T.FusedOut(x, w, b, scale, shift, s, q, f);
    if |subs| == 3 {
      var y, act := ActKernel(sim, subs[2].body, normed), sim.act(subs[2].body.quant);
      ActOfFused(act, f, x, w, b, scale, shift, s, q, Dim(subs[2].body, "n"), y);
      assert EpilogueOf(sim, subs) == Composed(act, f);
    }
  }

  // ---------------------------------------------------------------- fused tiles hold their cells

  lemma FusedCellsHeld(x: seq<int>, w: seq<int>, b: seq<int>, scale: seq<real>, shift: seq<real>, s: T.ConvShape, q: T.Quant, f: T.Epilogue,
                       tiles: nat, width: nat, t: nat)
    requires s.kh > 0 && s.kw > 0 && s.ow > 0 && |w| == s.oc * T.Taps(s) && |b| == s.oc && |scale| == s.oc && |shift| == s.oc
    requires width * tiles == s.oc && t < tiles
    ensures |T.FusedTiles(x, w, b, scale, shift, s, q, f, tiles, width)| == tiles
    ensures HoldsCells(T.FusedTiles(x, w, b, scale, shift, s, q, f, tiles, width)[t], T.FusedOut(x, w, b, scale, shift, s, q, f),
                       s.n, width, s.oc, s.oh * s.ow, t * width)
  {
    hide *;
    T.FusedPartsCount(x, w, b, scale, shift, s, q, f, tiles, width);
    var part, whole := T.FusedTiles(x, w, b, scale, shift, s, q, f, tiles, width)[t], T.FusedOut(x, w, b, scale, shift, s, q, f);
    var inner := s.oh * s.ow;
    FusedLengths(x, w, b, scale, shift, s, q, f, tiles, width, t);
    forall a: nat, j: nat, r: nat | a < s.n && j < width && r < inner
      ensures T.At(part, T.Position(width, inner, a, j, r)) == T.At(whole, T.Position(s.oc, inner, a, t * width + j, r))
    {
      T.FusedPart(x, w, b, scale, shift, s, q, f, tiles, width, t, a, j, r);
      T.SliceFits(s.oc, tiles, width, t, 1);
      T.FusedWhole(x, w, b, scale, shift, s, q, f);
      T.LaidHolds(s.n, s.oc, inner, T.FusedCells(x, w, b, scale, shift, s, q, f), a, t * width + j, r);
    }
    ToHoldsCells(part, whole, s.n, width, s.oc, inner, t * width);
  }

  lemma FusedLengths(x: seq<int>, w: seq<int>, b: seq<int>, scale: seq<real>, shift: seq<real>, s: T.ConvShape, q: T.Quant, f: T.Epilogue,
                     tiles: nat, width: nat, t: nat)
    requires s.kh > 0 && s.kw > 0 && s.ow > 0 && |w| == s.oc * T.Taps(s) && |b| == s.oc && |scale| == s.oc && |shift| == s.oc
    requires width * tiles == s.oc && t < tiles
    ensures |T.FusedTiles(x, w, b, scale, shift, s, q, f, tiles, width)| == tiles
    ensures |T.FusedTiles(x, w, b, scale, shift, s, q, f, tiles, width)[t]| == s.n * width * (s.oh * s.ow)
    ensures |T.FusedOut(x, w, b, scale, shift, s, q, f)| == s.n * s.oc * (s.oh * s.ow)
  {
    hide T.RowSlice, T.FusedCells, T.Taps;
    T.SliceFits(s.oc, tiles, width, t, T.Taps(s));
    T.SliceFits(s.oc, tiles, width, t, 1);
  }

  /** The stages of a tile: the same layers, narrowed to `width` channels in each stage's own entry. */
  ghost predicate Narrowed(subs: seq<Op>, stages: seq<Op>, width: nat) {
    && |stages| == |subs| && 2 <= |subs| <= 3
    && stages[0].body == subs[0].body.(shape := subs[0].body.shape["OC" := width])
    && stages[1].body == subs[1].body.(shape := stages[1].body.shape)
    && Dim(stages[1].body, "N") == Dim(subs[1].body, "N") && Dim(stages[1].body, "C") == width
    && Dim(stages[1].body, "H") == Dim(subs[1].body, "H") && Dim(stages[1].body, "W") == Dim(subs[1].body, "W")
    && (|subs| == 3 ==>
          && stages[2].body == subs[2].body.(shape := stages[2].body.shape)
          && Dim(stages[2].body, "n") == ConvShapeOf(subs[0].body).n * width * (ConvShapeOf(subs[0].body).oh * ConvShapeOf(subs[0].body).ow))
  }

  lemma NarrowedSizes(subs: seq<Op>, stages: seq<Op>, width: nat)
    requires StagesSized(subs) && Narrowed(subs, stages, width)
    ensures StagesSized(stages) && ConvShapeOf(stages[0].body) == ConvShapeOf(subs[0].body).(oc := width)
  {
  }

  /** The parameters fit the sizes. */
  ghost predicate ParamsFit(sim: Simulator, subs: seq<Op>)
    requires |subs| >= 2
  {
    var s := ConvShapeOf(subs[0].body);
    && |sim.weights(subs[0].body.attrs).0| == s.oc * T.Taps(s) && |sim.weights(subs[0].body.attrs).1| == s.oc
    && |sim.channels(subs[1].body.attrs).0| == s.oc && |sim.channels(subs[1].body.attrs).1| == s.oc
  }

  lemma TileSlices(w: seq<int>, b: seq<int>, scale: seq<real>, shift: seq<real>, oc: nat, k: nat, tiles: nat, width: nat, t: nat)
    requires |w| == oc * k && |b| == oc && |scale| == oc && |shift| == oc && width * tiles == oc && t < tiles
    ensures (t * width + width) * k <= |w| && (t * width + width) * 1 <= |b| && t * width + width <= oc
    ensures Slice(w, t * width * k, width * k) == T.RowSlice(w, k, width, t)
    ensures Slice(b, t * width, width) == T.RowSlice(b, 1, width, t)
    ensures Slice(scale, t * width, width) == scale[t * width..t * width + width]
    ensures Slice(shift, t * width, width) == shift[t * width..t * width + width]
    ensures Slice(w, 0 * k, oc * k) == w && Slice(b, 0, oc) == b && Slice(scale, 0, oc) == scale && Slice(shift, 0, oc) == shift
  {
    T.SliceFits(oc, tiles, width, t, k);
    T.SliceFits(oc, tiles, width, t, 1);
    SliceIsRows(w, k, width, t);
    SliceIsRows(b, 1, width, t);
    assert t * width * 1 == t * width && width * 1 == width;
    NoOffset(k);
  }

  lemma FusedTileIs(x: seq<int>, w: seq<int>, b: seq<int>, scale: seq<real>, shift: seq<real>, s: T.ConvShape, q: T.Quant, f: T.Epilogue,
                    tiles: nat, width: nat, t: nat)
    requires s.kh > 0 && s.kw > 0 && s.ow > 0 && |w| == s.oc * T.Taps(s) && |b| == s.oc && |scale| == s.oc && |shift| == s.oc
    requires width * tiles == s.oc && t < tiles
    ensures |T.FusedTiles(x, w, b, scale, shift, s, q, f, tiles, width)| == tiles
    ensures (t * width + width) * T.Taps(s) <= |w| && (t * width + width) * 1 <= |b| && t * width + width <= s.oc
    ensures T.FusedTiles(x, w, b, scale, shift, s, q, f, tiles, width)[t]
         == T.FusedOut(x, T.RowSlice(w, T.Taps(s), width, t), T.RowSlice(b, 1, width, t),
                       scale[t * width..t * width + width], shift[t * width..t * width + width], s.(oc := width), q, f)
  {
    hide T.RowSlice, T.FusedOut, T.Taps;
    T.SliceFits(s.oc, tiles, width, t, T.Taps(s));
    T.SliceFits(s.oc, tiles, width, t, 1);
  }

  /** The stages of a tile make its cells of what the stages of the whole op make. */
  lemma ChainTileHolds(sim: Simulator, subs: seq<Op>, stages: seq<Op>, tiles: nat, width: nat, t: nat, x: seq<int>)
    requires StagesSized(subs) && ParamsFit(sim, subs) && Narrowed(subs, stages, width) && t < tiles
    requires width * tiles == ConvShapeOf(subs[0].body).oc
    ensures StagesSized(stages)
    ensures var s := ConvShapeOf(subs[0].body);
      HoldsCells(ChainKernel(sim, stages, t * width, x), ChainKernel(sim, subs, 0, x), s.n, width, s.oc, s.oh * s.ow, t * width)
  {
    NarrowedSizes(subs, stages, width);
    ChainIsFused(sim, subs, 0, x);
    ChainIsFused(sim, stages, t * width, x);
    var s, w, b := ConvShapeOf(subs[0].body), sim.weights(subs[0].body.attrs).0, sim.weights(subs[0].body.attrs).1;
    var scale, shift := sim.channels(subs[1].body.attrs).0, sim.channels(subs[1].body.attrs).1;
    var q, f := sim.quant(subs[0].body.quant), EpilogueOf(sim, subs);
    assert EpilogueOf(sim, stages) == f;
    assert T.Taps(s.(oc := width)) == T.Taps(s);
    hide *;
    ParamsParts(sim, subs);
    NarrowedParts(subs, stages, width);
    TileSlices(w, b, scale, shift, s.oc, T.Taps(s), tiles, width, t);
    FusedTileIs(x, w, b, scale, shift, s, q, f, tiles, width, t);
    FusedCellsHeld(x, w, b, scale, shift, s, q, f, tiles, width, t);
  }

  lemma ParamsParts(sim: Simulator, subs: seq<Op>)
    requires |subs| >= 2 && ParamsFit(sim, subs)
    ensures var s := ConvShapeOf(subs[0].body);
      && |sim.weights(subs[0].body.attrs).0| == s.oc * T.Taps(s) && |sim.weights(subs[0].body.attrs).1| == s.oc
      && |sim.channels(subs[1].body.attrs).0| == s.oc && |sim.channels(subs[1].body.attrs).1| == s.oc
  {
  }

  lemma NarrowedParts(subs: seq<Op>, stages: seq<Op>, width: nat)
    requires Narrowed(subs, stages, width)
    ensures |stages| == |subs| && 2 <= |subs| <= 3
    ensures stages[0].body.attrs == subs[0].body.attrs && stages[0].body.quant == subs[0].body.quant
    ensures stages[1].body.attrs == subs[1].body.attrs
    ensures ConvShapeOf(stages[0].body) == ConvShapeOf(subs[0].body).(oc := width)
  {
  }

  // ---------------------------------------------------------------- stages as the splitter writes them

  lemma NarrowConv(shape: map<string, int>, full: int, width: int, id: int)
    requires "OC" in shape && shape["OC"] == full
    ensures S.NarrowShape(shape, full, width, id) == Ok(shape["OC" := width])
  {
  }

  lemma NarrowNorm(shape: map<string, int>, full: int, width: int, id: int)
    requires "OC" !in shape && "C" in shape && shape["C"] == full && full > 0
    ensures S.NarrowShape(shape, full, width, id) == Ok(shape["C" := width])
  {
  }

  lemma NarrowCount(shape: map<string, int>, full: nat, width: nat, id: int, images: nat, inner: nat)
    requires "OC" !in shape && "C" !in shape && full > 0 && "n" in shape && shape["n"] == images * full * inner > 0
    ensures S.NarrowShape(shape, full, width, id) == Ok(shape["n" := images * width * inner])
  {
    var n := images * full * inner;
    assert n == images * inner * full + 0;
    T.DivMod(images * inner, full, 0);
    assert images * inner * width == images * width * inner;
  }

  lemma Positive(a: nat, b: nat, c: nat)
    requires a > 0 && b > 0 && c > 0
    ensures a * b * c > 0
  {
    T.MulMono(1, a, b);
    T.MulMono(1, a * b, c);
  }

  lemma NoCount(shape: map<string, int>, full: nat, width: nat, id: int, images: nat, inner: nat)
    requires "OC" !in shape && "C" !in shape && full > 0 && S.Entry(shape, "n") <= 0 && images * full * inner == 0
    ensures S.NarrowShape(shape, full, width, id) == Ok(shape) && images * width * inner == 0
  {
    if images != 0 && inner != 0 {
      Positive(images, full, inner);
    }
    assert 0 * width == 0 && images * width * 0 == 0;
  }

  ghost predicate StageFits(sub: Op, stage: Op, inside: set<Name>, full: int, width: int, id: int, t: nat) {
    Ok(stage) == S.TiledStage(sub, inside, full, width, id, t)
  }

  lemma StageParts(sub: Op, stage: Op, inside: set<Name>, full: int, width: int, id: int, t: nat)
    requires StageFits(sub, stage, inside, full, width, id, t)
    ensures S.NarrowShape(sub.body.shape, full, width, id).Ok?
    ensures stage.body == sub.body.(shape := S.NarrowShape(sub.body.shape, full, width, id).value)
    ensures stage.inputs == S.Renamed(sub.inputs, inside, t) && stage.outputs == S.Renamed(sub.outputs, inside, t)
    ensures stage.subOps == sub.subOps
  {
    hide S.NarrowShape, S.Renamed;
  }

  lemma DimIs(body: Body, key: string)
    requires Dim(body, key) > 0
    ensures key in body.shape && body.shape[key] == Dim(body, key)
  {
  }

  lemma NarrowedConv(sub: Op, stage: Op, inside: set<Name>, width: nat, id: int, t: nat)
    requires ConvShapeOf(sub.body).oc > 0 && StageFits(sub, stage, inside, ConvShapeOf(sub.body).oc, width, id, t)
    ensures stage.body == sub.body.(shape := sub.body.shape["OC" := width])
  {
    var full := ConvShapeOf(sub.body).oc;
    StageParts(sub, stage, inside, full, width, id, t);
    DimIs(sub.body, "OC");
    NarrowConv(sub.body.shape, full, width, id);
  }

  lemma NarrowedNorm(sub: Op, stage: Op, inside: set<Name>, full: nat, width: nat, id: int, t: nat)
    requires full > 0 && Dim(sub.body, "C") == full && "OC" !in sub.body.shape && StageFits(sub, stage, inside, full, width, id, t)
    ensures stage.body == sub.body.(shape := sub.body.shape["C" := width])
  {
    StageParts(sub, stage, inside, full, width, id, t);
    DimIs(sub.body, "C");
    NarrowNorm(sub.body.shape, full, width, id);
  }

  lemma NarrowedAct(sub: Op, stage: Op, inside: set<Name>, full: nat, width: nat, id: int, t: nat, images: nat, inner: nat)
    requires full > 0 && Dim(sub.body, "n") == images * full * inner && "OC" !in sub.body.shape && "C" !in sub.body.shape
    requires StageFits(sub, stage, inside, full, width, id, t)
    ensures stage.body == sub.body.(shape := stage.body.shape) && Dim(stage.body, "n") == images * width * inner
  {
    StageParts(sub, stage, inside, full, width, id, t);
    hide S.NarrowShape;
    if Dim(sub.body, "n") > 0 {
      DimIs(sub.body, "n");
      NarrowCount(sub.body.shape, full, width, id, images, inner);
    } else {
      NoCount(sub.body.shape, full, width, id, images, inner);
    }
  }

  ghost predicate StagesFit(subs: seq<Op>, stages: seq<Op>, full: int, width: int, id: int, t: nat) {
    |stages| == |subs| && forall i :: 0 <= i < |subs| ==> StageFits(subs[i], stages[i], S.Inside(subs), full, width, id, t)
  }

  lemma StagesNarrowed(sim: Simulator, o: Op, stages: seq<Op>, width: nat, id: int, t: nat)
    requires ChainFits(sim, o) && StagesFit(o.subOps, stages, ConvShapeOf(o.subOps[0].body).oc, width, id, t)
    ensures Narrowed(o.subOps, stages, width)
  {
    hide StageFits, S.Inside, ConvSized, T.Taps;
    var subs, s := o.subOps, ConvShapeOf(o.subOps[0].body);
    NarrowedConv(subs[0], stages[0], S.Inside(subs), width, id, t);
    NarrowedNorm(subs[1], stages[1], S.Inside(subs), s.oc, width, id, t);
    if |subs| == 3 {
      NarrowedAct(subs[2], stages[2], S.Inside(subs), s.oc, width, id, t, s.n, s.oh * s.ow);
    }
  }

  lemma RenamedOne(names: seq<Name>, inside: set<Name>, t: nat)
    requires |names| == 1
    ensures S.Renamed(names, inside, t) == [if names[0] in inside then TileName(names[0], t) else names[0]]
  {
    hide TileName;
  }

  lemma MadeInside(subs: seq<Op>, i: nat)
    requires i < |subs| && |subs[i].outputs| == 1
    ensures subs[i].outputs[0] in S.Inside(subs)
  {
    assert subs[i] in subs && subs[i].outputs[0] in subs[i].outputs;
  }

  /** How stage `i` of a tile is wired. */
  ghost predicate Wired(o: Op, stages: seq<Op>, t: nat, i: nat)
    requires i < |o.subOps| && |stages| == |o.subOps| && forall j :: 0 <= j < |o.subOps| ==> |o.subOps[j].outputs| == 1
  {
    && stages[i].subOps == [] && stages[i].outputs == [TileName(o.subOps[i].outputs[0], t)]
    && stages[i].inputs == if i == 0 then o.subOps[0].inputs else [TileName(o.subOps[i - 1].outputs[0], t)]
  }

  lemma StageWired(o: Op, stages: seq<Op>, full: int, width: int, id: int, t: nat, i: nat)
    requires Chained(o) && o.subOps[0].inputs[0] !in S.Inside(o.subOps) && StagesFit(o.subOps, stages, full, width, id, t) && i < |o.subOps|
    ensures Wired(o, stages, t, i)
  {
    hide TileName, StagesSized, S.Inside, StageFits;
    var subs := o.subOps;
    assert StageFits(subs[i], stages[i], S.Inside(subs), full, width, id, t);
    StageParts(subs[i], stages[i], S.Inside(subs), full, width, id, t);
    RenamedOne(subs[i].outputs, S.Inside(subs), t);
    RenamedOne(subs[i].inputs, S.Inside(subs), t);
    MadeInside(subs, i);
    if i > 0 {
      MadeInside(subs, i - 1);
      assert subs[i].inputs == subs[i - 1].outputs;
    } else {
      assert subs[0].inputs == [subs[0].inputs[0]];
    }
  }

  lemma TileChained(sim: Simulator, o: Op, tile: Op, width: nat, id: int, t: nat)
    requires ChainFits(sim, o) && StagesFit(o.subOps, tile.subOps, ConvShapeOf(o.subOps[0].body).oc, width, id, t)
    requires tile.outputs == [TileName(o.outputs[0], t)]
    ensures Chained(tile) && tile.subOps[0].inputs == o.subOps[0].inputs
  {
    var full := ConvShapeOf(o.subOps[0].body).oc;
    StagesNarrowed(sim, o, tile.subOps, width, id, t);
    NarrowedSizes(o.subOps, tile.subOps, width);
    hide TileName, ConvFits, StagesSized, StageFits, ConvShapeOf, ConvSized, S.Inside, T.Taps;
    StageWired(o, tile.subOps, full, width, id, t, 0);
    StageWired(o, tile.subOps, full, width, id, t, 1);
    StageWired(o, tile.subOps, full, width, id, t, |o.subOps| - 1);
  }

  lemma FusedTileMakes(k: Located, sim: Simulator, o: Op, tile: Op, id: int, width: nat, t: nat, e: Env) returns (x: seq<int>)
    requires Interprets(k, sim) && OffsetOf(o) == 0 && o.outputs != [] && tile.outputs != [] && o.subOps != [] && ChainFits(sim, o)
    requires StagesFit(o.subOps, tile.subOps, ConvShapeOf(o.subOps[0].body).oc, width, id, t)
    requires tile.outputs == [TileName(o.outputs[0], t)] && OffsetOf(tile) == t * width
    ensures StagesSized(o.subOps) && StagesSized(tile.subOps)
    ensures Made(k, o, e) == ChainKernel(sim, o.subOps, 0, x) && Made(k, tile, e) == ChainKernel(sim, tile.subOps, t * width, x)
  {
    hide *;
    ChainParts(sim, o);
    TileChained(sim, o, tile, width, id, t);
    ChainedParts(tile);
    x := Ints(Read(e, o.subOps[0].inputs[0]));
    ChainMakes(k, sim, o, e);
    ChainMakes(k, sim, tile, e);
  }

  lemma ChainedParts(o: Op)
    requires Chained(o)
    ensures StagesSized(o.subOps) && o.outputs != [] && 2 <= |o.subOps| <= 3 && |o.subOps[0].inputs| == 1
  {
    hide StagesSized;
  }

  lemma FusedTileHolds(k: Located, sim: Simulator, o: Op, tile: Op, id: int, n: nat, width: nat, t: nat, e: Env)
    requires Interprets(k, sim) && OffsetOf(o) == 0 && t < n && o.outputs != [] && tile.outputs != [] && o.subOps != [] && ChainFits(sim, o)
    requires width * n == ConvShapeOf(o.subOps[0].body).oc && o.body.kind != "linear_s8" && o.body.kind != "conv2d_s8" && tile.body == o.body
    requires StagesFit(o.subOps, tile.subOps, ConvShapeOf(o.subOps[0].body).oc, width, id, t)
    requires tile.outputs == [TileName(o.outputs[0], t)] && OffsetOf(tile) == t * width
    ensures HoldsItsPart(k, o, tile, e) && Geometry(tile).1 == width
  {
    hide *;
    ChainParts(sim, o);
    StagesNarrowed(sim, o, tile.subOps, width, id, t);
    var x := FusedTileMakes(k, sim, o, tile, id, width, t, e);
    ChainTileHolds(sim, o.subOps, tile.subOps, n, width, t, x);
    NarrowedParts(o.subOps, tile.subOps, width);
    ChainGeometry(o);
    ChainGeometry(tile);
    ToHoldsItsPart(k, o, tile, e);
  }

  lemma ChainGeometry(o: Op)
    requires o.body.kind != "linear_s8" && o.body.kind != "conv2d_s8" && o.subOps != []
    ensures var s := ConvShapeOf(o.subOps[0].body); Geometry(o) == (s.n, s.oc, s.oh * s.ow)
  {
  }

  lemma ToHoldsItsPart(k: Located, o: Op, tile: Op, e: Env)
    requires o.outputs != [] && tile.outputs != [] && OffsetOf(tile) >= 0
    requires Geometry(tile).0 == Geometry(o).0 && Geometry(tile).2 == Geometry(o).2
    requires HoldsCells(Made(k, tile, e), Made(k, o, e), Geometry(o).0, Geometry(tile).1, Geometry(o).1, Geometry(o).2, OffsetOf(tile))
    ensures HoldsItsPart(k, o, tile, e)
  {
    hide HoldsCells, Made, Geometry, OffsetOf;
  }

  lemma ChainParts(sim: Simulator, o: Op)
    requires ChainFits(sim, o)
    ensures Chained(o) && StagesSized(o.subOps) && ParamsFit(sim, o.subOps) && o.outputs != [] && 2 <= |o.subOps| <= 3
    ensures |o.subOps[0].inputs| == 1 && |o.outputs| == 1
  {
    hide StagesSized, S.Inside;
  }

  // ---------------------------------------------------------------- all tiles

  lemma WidthOfPlain(o: Op, id: int, n: nat, dim: string, tiles: seq<Op>, t: nat) returns (width: nat)
    requires n >= 2 && S.PlainTiles(o, id, n, dim) == Ok(tiles) && t < n && Dim(o.body, dim) > 0
    ensures |tiles| == n && o.outputs != [] && width * n == Dim(o.body, dim) && tiles[t] == S.PlainTile(o, id, n, dim, width, t)
  {
    hide S.PlainTile;
    width := o.body.shape[dim] / n;
  }

  lemma WidthOfFused(o: Op, id: int, n: nat, tiles: seq<Op>, t: nat) returns (width: nat)
    requires n >= 2 && S.FusedTiles(o, id, n) == Ok(tiles) && t < n && |o.subOps| >= 2 && o.subOps[0].body.kind == "conv2d_s8"
    requires Dim(o.subOps[0].body, "OC") > 0
    ensures |tiles| == n && o.outputs != [] && width * n == Dim(o.subOps[0].body, "OC")
    ensures StagesFit(o.subOps, tiles[t].subOps, Dim(o.subOps[0].body, "OC"), width, id, t)
    ensures tiles[t].outputs == [TileName(o.outputs[0], t)] && OffsetOf(tiles[t]) == t * width && tiles[t].body == o.body
  {
    hide TileName, S.TiledStages, S.TiledStage, S.Inside;
    var conv := o.subOps[0];
    assert conv.body.shape != map[] by { assert "OC" in conv.body.shape; }
    assert S.ConvStage(o.subOps) == Some(conv);
    width := conv.body.shape["OC"] / n;
    assert S.FusedTile(o, id, n, conv.body.shape["OC"], width, t) == Ok(tiles[t]);
    assert S.TiledStages(o.subOps, conv.body.shape["OC"], width, id, t, |o.subOps|) == Ok(tiles[t].subOps);
  }

  lemma NoTileOffset(o: Op)
    requires !o.origin.Tile?
    ensures OffsetOf(o) == 0
  {
  }

  /** A tile's own shape and record: equal widths that add up to the whole, each beginning where the
      one before it ends. */
  lemma TileRecord(sim: Simulator, o: Op, id: int, n: nat, tiles: seq<Op>, t: nat)
    requires Fits(sim, o) && n >= 2 && S.TilesOf(o, id, n) == Ok(tiles) && t < n
    ensures |tiles| == n && Geometry(tiles[t]) == (Geometry(o).0, Geometry(tiles[t]).1, Geometry(o).2)
    ensures Geometry(tiles[t]).1 * n == Geometry(o).1 > 0 && OffsetOf(tiles[t]) == t * Geometry(tiles[t]).1
  {
    if o.body.kind == "linear_s8" {
      var width := WidthOfPlain(o, id, n, "N", tiles, t);
      PlainTileParts(o, id, n, "N", width, t);
      hide S.PlainTile, S.TilesOf;
      LinearGeometry(o, tiles[t], width);
    } else if o.body.kind == "conv2d_s8" {
      var width := WidthOfPlain(o, id, n, "OC", tiles, t);
      PlainTileParts(o, id, n, "OC", width, t);
      hide S.PlainTile, S.TilesOf;
      ConvGeometry(o, tiles[t], width);
    } else {
      ChainParts(sim, o);
      var width := WidthOfFused(o, id, n, tiles, t);
      hide S.TilesOf, StagesFit, Chained;
      StagesNarrowed(sim, o, tiles[t].subOps, width, id, t);
      NarrowedParts(o.subOps, tiles[t].subOps, width);
      ChainGeometry(o);
      ChainGeometry(tiles[t]);
    }
  }

  /** Every tile of a split op, run as the op it is, holds the part of the unsplit result that it
      records; the parts are as wide as each other and together as wide as the whole. */
  lemma TileHoldsItsPart(k: Located, sim: Simulator, o: Op, id: int, n: nat, tiles: seq<Op>, t: nat, e: Env)
    requires Interprets(k, sim) && Fits(sim, o) && !o.origin.Tile? && n >= 2 && S.TilesOf(o, id, n) == Ok(tiles) && t < n
    ensures |tiles| == n && HoldsItsPart(k, o, tiles[t], e)
    ensures Geometry(tiles[t]).1 * n == Geometry(o).1 > 0 && OffsetOf(tiles[t]) == t * Geometry(tiles[t]).1
  {
    NoTileOffset(o);
    if o.body.kind == "linear_s8" {
      var width := WidthOfPlain(o, id, n, "N", tiles, t);
      PlainTileParts(o, id, n, "N", width, t);
      hide Interprets, HoldsItsPart, S.PlainTile, S.TilesOf;
      LinearTileHolds(k, sim, o, tiles[t], n, width, t, e);
    } else if o.body.kind == "conv2d_s8" {
      var width := WidthOfPlain(o, id, n, "OC", tiles, t);
      PlainTileParts(o, id, n, "OC", width, t);
      hide Interprets, HoldsItsPart, S.PlainTile, S.TilesOf;
      ConvTileHolds(k, sim, o, tiles[t], n, width, t, e);
    } else {
      ChainParts(sim, o);
      var width := WidthOfFused(o, id, n, tiles, t);
      hide Interprets, HoldsItsPart, S.TilesOf, StagesFit;
      FusedTileHolds(k, sim, o, tiles[t], id, n, width, t, e);
    }
  }

  /** How a tile is built: a plain one has no stages, a fused one has a chain that reads what its op read. */
  lemma TileIsBuilt(sim: Simulator, o: Op, id: int, n: nat, tiles: seq<Op>, t: nat)
    requires Fits(sim, o) && n >= 2 && S.TilesOf(o, id, n) == Ok(tiles) && t < n
    ensures |tiles| == n
    ensures o.body.kind == "linear_s8" || o.body.kind == "conv2d_s8" ==> tiles[t].subOps == []
    ensures o.body.kind != "linear_s8" && o.body.kind != "conv2d_s8" ==>
      Chained(o) && Chained(tiles[t]) && tiles[t].subOps[0].inputs == o.subOps[0].inputs
  {
    if o.body.kind == "linear_s8" {
      var width := WidthOfPlain(o, id, n, "N", tiles, t);
      PlainTileParts(o, id, n, "N", width, t);
    } else if o.body.kind == "conv2d_s8" {
      var width := WidthOfPlain(o, id, n, "OC", tiles, t);
      PlainTileParts(o, id, n, "OC", width, t);
    } else {
      ChainParts(sim, o);
      var width := WidthOfFused(o, id, n, tiles, t);
      hide S.TilesOf, StagesFit, Chained;
      TileChained(sim, o, tiles[t], width, id, t);
    }
  }

  lemma WholeMakesNumbers(k: Located, sim: Simulator, o: Op, e: Env)
    requires Interprets(k, sim) && Fits(sim, o)
    ensures o.outputs != [] && MakesNumbers(k, o, e)
  {
    hide MakesNumbers;
    if o.body.kind == "linear_s8" {
      LinearMakes(k, sim, o, e);
    } else if o.body.kind == "conv2d_s8" {
      ConvMakes(k, sim, o, e);
    } else {
      ChainParts(sim, o);
      ChainMakes(k, sim, o, e);
    }
  }
}
