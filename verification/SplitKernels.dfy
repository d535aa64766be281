/** What the tiles of a split op compute when they are run as ops (pipeline/apply_split_hint.py, with the
    int8 kernels of pipeline/extract_graph.py and the call parameters of pipeline/generate_skeleton.py).

    A call gets its sizes from the shape entries of the op it runs, and pointers into the parameters
    of the layer that start at the channel the op records. */
module SplitKernels {
  import opened Ir
  import T = Tiles
  import S = Split

  /** Kernels called with parameters from a given channel on. */
  type Located = int -> Kernels

  function OffsetOf(o: Op): int { if o.origin.Tile? then o.origin.offset else 0 }

  // ---------------------------------------------------------------- values

  function IntOf(x: Num): int { if x.Fin? then x.value.Floor else 0 }

  function Ints(v: Value): (s: seq<int>)
    ensures |s| == |v|
  {
    seq(|v|, i requires 0 <= i < |v| => IntOf(v[i]))
  }

  function Nums(s: seq<int>): (v: Value)
    ensures |v| == |s|
  {
    seq(|s|, i requires 0 <= i < |s| => Fin(s[i] as real))
  }

  lemma IntsOfNums(s: seq<int>)
    ensures Ints(Nums(s)) == s
  {
    assert forall i :: 0 <= i < |s| ==> Ints(Nums(s))[i] == s[i];
  }

  // ---------------------------------------------------------------- kernels

  /** What the simulator looks up: a layer's weights and bias, a channel's scale and shift, the
      quantisation, and what normalisation and activation make of one element. */
  datatype Simulator = Simulator(
    weights: map<string, string> -> (seq<int>, seq<int>),
    channels: map<string, string> -> (seq<real>, seq<real>),
    quant: map<string, real> -> T.Quant,
    norm: map<string, real> -> T.Epilogue,
    act: map<string, real> -> (int -> int))

  function Dim(body: Body, key: string): nat {
    if key in body.shape && body.shape[key] >= 0 then body.shape[key] else 0
  }

  function LinearShapeOf(body: Body): T.LinearShape {
    T.LinearShape(Dim(body, "M"), Dim(body, "K"), Dim(body, "N"))
  }

  function ConvShapeOf(body: Body): T.ConvShape {
    T.ConvShape(Dim(body, "N"), Dim(body, "IC"), Dim(body, "IH"), Dim(body, "IW"), Dim(body, "OC"), Dim(body, "OH"), Dim(body, "OW"),
                Dim(body, "KH"), Dim(body, "KW"), Dim(body, "SH"), Dim(body, "SW"), Dim(body, "PH"), Dim(body, "PW"))
  }

  predicate ConvSized(body: Body) {
    Dim(body, "KH") > 0 && Dim(body, "KW") > 0 && Dim(body, "OW") > 0
  }

  /** `n` elements from `lo` on. */
  function Slice<X>(s: seq<X>, lo: int, n: nat): seq<X> {
    if 0 <= lo && lo + n <= |s| then s[lo..lo + n] else []
  }

  function LinearKernel(sim: Simulator, body: Body, off: int, x: seq<int>): seq<int> {
    var sh, w, b := LinearShapeOf(body), sim.weights(body.attrs).0, sim.weights(body.attrs).1;
    T.LinearOut(x, Slice(w, off * sh.k, sh.n * sh.k), Slice(b, off, sh.n), sh, sim.quant(body.quant))
  }

  function ConvKernel(sim: Simulator, body: Body, off: int, x: seq<int>): seq<int>
    requires ConvSized(body)
  {
    var s, w, b := ConvShapeOf(body), sim.weights(body.attrs).0, sim.weights(body.attrs).1;
    T.ConvOut(x, Slice(w, off * T.Taps(s), s.oc * T.Taps(s)), Slice(b, off, s.oc), s, sim.quant(body.quant))
  }

  function NormKernel(sim: Simulator, body: Body, off: int, x: seq<int>): seq<int> {
    var c, inner := Dim(body, "C"), Dim(body, "H") * Dim(body, "W");
    var scale, shift := Slice(sim.channels(body.attrs).0, off, c), Slice(sim.channels(body.attrs).1, off, c);
    T.Laid(Dim(body, "N"), c, inner, NormCells(sim.norm(body.quant), scale, shift, c, inner, x))
  }

  function NormCells(f: T.Epilogue, scale: seq<real>, shift: seq<real>, channels: nat, inner: nat, x: seq<int>): (nat, nat, nat) -> int {
    (n: nat, c: nat, r: nat) => f(T.ParamAt(scale, c), T.ParamAt(shift, c), T.At(x, T.Position(channels, inner, n, c, r)))
  }

  function ActKernel(sim: Simulator, body: Body, x: seq<int>): seq<int> {
    seq(Dim(body, "n"), i requires 0 <= i < Dim(body, "n") => sim.act(body.quant)(T.At(x, i)))
  }

  /** The kernels are the simulator's. */
  ghost predicate Interprets(k: Located, sim: Simulator) {
    RunsLinear(k, sim) && RunsConv(k, sim) && RunsNorm(k, sim) && RunsAct(k, sim)
  }

  ghost predicate RunsLinear(k: Located, sim: Simulator) {
    forall off: int, body: Body, v: Value :: body.kind == "linear_s8" ==> k(off)(body, [v]) == [Nums(LinearKernel(sim, body, off, Ints(v)))]
  }

  ghost predicate RunsConv(k: Located, sim: Simulator) {
    forall off: int, body: Body, v: Value :: body.kind == "conv2d_s8" && ConvSized(body) ==> k(off)(body, [v]) == [Nums(ConvKernel(sim, body, off, Ints(v)))]
  }

  ghost predicate RunsNorm(k: Located, sim: Simulator) {
    forall off: int, body: Body, v: Value :: body.kind == "batchnorm2d_s8" ==> k(off)(body, [v]) == [Nums(NormKernel(sim, body, off, Ints(v)))]
  }

  ghost predicate RunsAct(k: Located, sim: Simulator) {
    forall off: int, body: Body, v: Value :: body.kind == "silu_s8" ==> k(off)(body, [v]) == [Nums(ActKernel(sim, body, Ints(v)))]
  }

  /** Kernels that are the simulator's and return nothing for other ops. */
  function SimulatorKernels(sim: Simulator): Located {
    (off: int) => (body: Body, vs: seq<Value>) => Simulate(sim, off, body, vs)
  }

  function Simulate(sim: Simulator, off: int, body: Body, vs: seq<Value>): seq<Value> {
    if |vs| != 1 then []
    else
      match body.kind
      case "linear_s8" => [Nums(LinearKernel(sim, body, off, Ints(vs[0])))]
      case "conv2d_s8" => if ConvSized(body) then [Nums(ConvKernel(sim, body, off, Ints(vs[0])))] else []
      case "batchnorm2d_s8" => [Nums(NormKernel(sim, body, off, Ints(vs[0])))]
      case "silu_s8" => [Nums(ActKernel(sim, body, Ints(vs[0])))]
      case _ => []
  }

  lemma SimulatorInterprets(sim: Simulator)
    ensures Interprets(SimulatorKernels(sim), sim)
  {
    hide LinearKernel, ConvKernel, NormKernel, ActKernel, ConvSized, Nums, Ints;
  }

  // ---------------------------------------------------------------- ops that can be cut

  /** A layer whose shape fits its parameters. */
  ghost predicate LinearFits(sim: Simulator, o: Op) {
    var sh := LinearShapeOf(o.body);
    && o.subOps == [] && |o.inputs| == 1 && |o.outputs| == 1 && sh.n > 0
    && |sim.weights(o.body.attrs).0| == sh.n * sh.k && |sim.weights(o.body.attrs).1| == sh.n
  }

  ghost predicate ConvFits(sim: Simulator, o: Op) {
    var s := ConvShapeOf(o.body);
    && o.body.kind == "conv2d_s8" && o.subOps == [] && |o.inputs| == 1 && |o.outputs| == 1 && ConvSized(o.body) && s.oc > 0
    && |sim.weights(o.body.attrs).0| == s.oc * T.Taps(s) && |sim.weights(o.body.attrs).1| == s.oc
  }

  /** Each stage reads what the one before it made. */
  ghost predicate Chained(o: Op) {
    && 2 <= |o.subOps| <= 3
    && (forall i :: 0 <= i < |o.subOps| ==> o.subOps[i].subOps == [] && |o.subOps[i].inputs| == 1 && |o.subOps[i].outputs| == 1)
    && (forall i :: 1 <= i < |o.subOps| ==> o.subOps[i].inputs == o.subOps[i - 1].outputs)
    && o.outputs == o.subOps[|o.subOps| - 1].outputs
    && o.subOps[0].body.kind == "conv2d_s8" && o.subOps[1].body.kind == "batchnorm2d_s8"
    && (|o.subOps| == 3 ==> o.subOps[2].body.kind == "silu_s8")
    && StagesSized(o.subOps)
  }

  /** The stages describe one tensor, each in its own entries. */
  ghost predicate StagesSized(subs: seq<Op>) {
    && 2 <= |subs| <= 3 && ConvSized(subs[0].body)
    && var s, norm := ConvShapeOf(subs[0].body), subs[1].body;
    && Dim(norm, "N") == s.n && Dim(norm, "C") == s.oc && Dim(norm, "H") == s.oh && Dim(norm, "W") == s.ow
    && (|subs| == 3 ==> Dim(subs[2].body, "n") == s.n * s.oc * (s.oh * s.ow))
  }

  ghost predicate ChainFits(sim: Simulator, o: Op) {
    && Chained(o) && ConvFits(sim, o.subOps[0]) && o.subOps[0].inputs[0] !in S.Inside(o.subOps)
    && |sim.channels(o.subOps[1].body.attrs).0| == ConvShapeOf(o.subOps[0].body).oc
    && |sim.channels(o.subOps[1].body.attrs).1| == ConvShapeOf(o.subOps[0].body).oc
    && "OC" !in o.subOps[1].body.shape
    && (|o.subOps| == 3 ==> "OC" !in o.subOps[2].body.shape && "C" !in o.subOps[2].body.shape)
  }

  /** An op whose shape, parameters and stages are those of a layer that can be cut. */
  ghost predicate Fits(sim: Simulator, o: Op) {
    if o.body.kind == "linear_s8" then LinearFits(sim, o)
    else if o.body.kind == "conv2d_s8" then ConvFits(sim, o)
    else ChainFits(sim, o)
  }

  /** Rows or images, channels, and elements of a channel, as the op's own shape has them. */
  function Geometry(o: Op): (nat, nat, nat) {
    if o.body.kind == "linear_s8" then (Dim(o.body, "M"), Dim(o.body, "N"), 1)
    else
      var body := if o.body.kind == "conv2d_s8" || o.subOps == [] then o.body else o.subOps[0].body;
      (Dim(body, "N"), Dim(body, "OC"), Dim(body, "OH") * Dim(body, "OW"))
  }
}
