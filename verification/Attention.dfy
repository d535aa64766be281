/** Recognising attention (pipeline/attention_fuse.py): score bmm, positive scales and at most one
    causal mask in any order, softmax or relu, second bmm.

    The walk over the chain is modelled stage by stage. */
module Attention {
  import opened Ir
  import Schedules

  datatype Const = Text(text: string) | Values(values: Value)

  type Lookup = Name -> Option<Const>
  type Tensors = map<Name, TensorMeta>

  const KIND := "attention_f16"
  const MAXD := 256
  const VERIFIED_TRIU := "verified:triu1"

  // ---------------------------------------------------------------- reading an op

  function NumberOr(o: Op, key: string, default: int): int {
    if key in o.body.shape then o.body.shape[key] else default
  }

  function Number(o: Op, key: string): int { NumberOr(o, key, 0) }

  function Text_(o: Op, key: string): string {
    if key in o.body.attrs then o.body.attrs[key] else ""
  }

  predicate IsBmm(o: Op) { o.body.kind == "bmm_f16" }

  /** Multiplication or division by a constant; 3 and 4 are the codes of the scalar kernel. */
  function ScaleOf(o: Op): Option<real> {
    if o.body.kind == "mul_scalar_f16" && "scalar" in o.body.quant then Some(o.body.quant["scalar"])
    else if o.body.kind == "ewise_scalar_f16" && Number(o, "opc") in {3, 4} && "c" in o.body.quant then
      var c := o.body.quant["c"];
      if Number(o, "opc") == 3 then Some(c) else if c != 0.0 then Some(1.0 / c) else None
    else None
  }

  predicate IsMaskedFill(o: Op) {
    o.body.kind == "ewise2_f16" && (Text_(o, "fn") == "masked_fill" || Number(o, "opc") == 7)
  }

  predicate FillsMinusInfinity(o: Op) { Text_(o, "alpha") == "-inf" }

  predicate IsSoftmax(o: Op) { o.body.kind == "softmax_f16" || o.body.kind == "softmax_dim_f16" }

  predicate IsRelu(o: Op) {
    o.body.kind == "relu_f16" || (o.body.kind == "ewise1_f16" && (Text_(o, "fn") == "relu" || Number(o, "opc") == 8))
  }

  predicate IsView(o: Op) { o.body.kind == "view" && Number(o, "offset") == 0 }

  // ---------------------------------------------------------------- the mask

  const DIMS := ["d0", "d1", "d2", "d3", "d4", "d5"]
  const STRIDES_A := ["sa0", "sa1", "sa2", "sa3", "sa4", "sa5"]
  const STRIDES_B := ["sb0", "sb1", "sb2", "sb3", "sb4", "sb5"]

  function Product(o: Op, k: nat): int
    requires k <= 6
  {
    if k == 0 then 1 else Product(o, k - 1) * Number(o, DIMS[k - 1])
  }

  /** Where element `i`, in row-major order over the first `k` dimensions, lies in an operand. */
  function Offset(o: Op, strides: seq<string>, k: nat, i: int): int
    requires k <= 6 && |strides| == 6
  {
    if k == 0 || Number(o, DIMS[k - 1]) == 0 then 0
    else Offset(o, strides, k - 1, i / Number(o, DIMS[k - 1])) + i % Number(o, DIMS[k - 1]) * Number(o, strides[k - 1])
  }

  /** Element `i` of the strided view of the mask that the op reads. */
  function MaskAt(values: Value, o: Op, i: int): bool {
    var p := Offset(o, STRIDES_B, 6, i);
    0 <= p < |values| && values[p] != Fin(0.0)
  }

  datatype Dims = Dims(batch: nat, m: nat, n: nat)

  predicate IsTriu(values: Value, o: Op, d: Dims) {
    forall b, m, n :: 0 <= b < d.batch && 0 <= m < d.m && 0 <= n < d.n ==> MaskedAt(values, o, d, b, m, n) == (n > m)
  }

  predicate MaskedAt(values: Value, o: Op, d: Dims, b: nat, m: nat, n: nat) {
    MaskAt(values, o, (b * d.m + m) * d.n + n)
  }

  function MaskKey(tensors: Tensors, o: Op): string {
    if |o.inputs| >= 2 && o.inputs[1] in tensors then tensors[o.inputs[1]].const_ else ""
  }

  predicate IsCausalMask(tensors: Tensors, o: Op, d: Dims, lookup: Lookup) {
    && IsMaskedFill(o) && FillsMinusInfinity(o) && d.m == d.n
    && MaskKey(tensors, o) != ""
    && match lookup(MaskKey(tensors, o))
       case None => false
       case Some(Text(text)) => text == VERIFIED_TRIU
       case Some(Values(values)) => Product(o, 6) == d.batch * d.m * d.n && IsTriu(values, o, d)
  }

  // ---------------------------------------------------------------- following a tensor

  function Occurrences(names: seq<Name>, t: Name): nat {
    if names == [] then 0 else Occurrences(names[..|names| - 1], t) + if names[|names| - 1] == t then 1 else 0
  }

  lemma {:induction false} OccursIff(names: seq<Name>, t: Name)
    ensures Occurrences(names, t) > 0 <==> t in names
  {
    if names != [] {
      OccursIff(names[..|names| - 1], t);
      assert names == names[..|names| - 1] + [names[|names| - 1]];
    }
  }

  /** The ops that read a tensor, once for every operand. */
  function Readers(ops: seq<Op>, t: Name, k: nat): (r: seq<nat>)
    requires k <= |ops|
    ensures forall j :: 0 <= j < |r| ==> r[j] < k && t in ops[r[j]].inputs
  {
    if k == 0 then []
    else
      OccursIff(ops[k - 1].inputs, t);
      Readers(ops, t, k - 1) + seq(Occurrences(ops[k - 1].inputs, t), _ => k - 1)
  }

  lemma {:induction false} AllReaders(ops: seq<Op>, t: Name, k: nat, i: nat)
    requires i < k <= |ops| && t in ops[i].inputs
    ensures i in Readers(ops, t, k)
  {
    OccursIff(ops[i].inputs, t);
    if i < k - 1 {
      AllReaders(ops, t, k - 1, i);
    } else {
      var n := Occurrences(ops[i].inputs, t);
      assert Readers(ops, t, k)[|Readers(ops, t, k - 1)|] == i;
    }
  }

  datatype Net = Net(ops: seq<Op>, tensors: Tensors, outs: set<Name>)

  /** Ops in data-flow order, each with an output. */
  ghost predicate Listed(ops: seq<Op>) {
    Schedules.Flows(ops) && forall o :: o in ops ==> o.outputs != []
  }

  datatype Followed = Followed(op: nat, tensor: Name, views: seq<nat>)

  /** The single reader of the first output of op `at`, views skipped. */
  function Follow(g: Net, at: nat): (r: Option<Followed>)
    requires Listed(g.ops) && at < |g.ops|
    ensures r.Some? ==> at < r.value.op < |g.ops| && !IsView(g.ops[r.value.op])
    decreases |g.ops| - at
  {
    assert g.ops[at] in g.ops;
    var t := g.ops[at].outputs[0];
    var readers := Readers(g.ops, t, |g.ops|);
    if |readers| != 1 || t in g.outs then None
    else
      var r := readers[0];
      assert t in g.ops[r].inputs && t in g.ops[at].outputs;
      if IsView(g.ops[r]) then
        Behind([r], Follow(g, r))
      else Some(Followed(r, t, []))
  }

  function Behind(views: seq<nat>, f: Option<Followed>): Option<Followed> {
    match f
    case None => None
    case Some(r) => Some(r.(views := views + r.views))
  }

  lemma BehindNothing(f: Option<Followed>)
    ensures Behind([], f) == f
  {
    if f.Some? { assert [] + f.value.views == f.value.views; }
  }

  lemma BehindMore(views: seq<nat>, i: nat, f: Option<Followed>)
    ensures Behind(views, Behind([i], f)) == Behind(views + [i], f)
  {
    if f.Some? { assert views + ([i] + f.value.views) == (views + [i]) + f.value.views; }
  }

  method FollowReader(g: Net, start: nat) returns (r: Option<Followed>)
    requires Listed(g.ops) && start < |g.ops|
    ensures r == Follow(g, start)
  {
    var at, views: seq<nat> := start, [];
    BehindNothing(Follow(g, start));
    while true
      invariant at < |g.ops|
      invariant Follow(g, start) == Behind(views, Follow(g, at))
      decreases |g.ops| - at
    {
      assert g.ops[at] in g.ops;
      var t := g.ops[at].outputs[0];
      var readers := Readers(g.ops, t, |g.ops|);
      if |readers| != 1 || t in g.outs { return None; }
      var i := readers[0];
      assert t in g.ops[i].inputs && t in g.ops[at].outputs;
      if !IsView(g.ops[i]) {
        assert views + [] == views;
        return Some(Followed(i, t, views));
      }
      BehindMore(views, i, Follow(g, i));
      views := views + [i];
      at := i;
    }
  }

  // ---------------------------------------------------------------- the walk

  datatype Act = Softmax | Relu

  datatype Walk = Walk(
    scale: real, causal: bool, act: Option<Act>, masks: seq<Name>,
    absorbed: seq<nat>, pending: seq<Op>, at: nat)

  datatype Problem = Problem(d: Dims, lookup: Lookup)

  /** One stage of the chain; softmax must run over exactly the score row. */
  function TakeStage(g: Net, p: Problem, w: Walk): Option<Walk>
    requires w.pending != []
  {
    var st := w.pending[0];
    var next := w.(pending := w.pending[1..]);
    if w.act.Some? then None
    else
      match ScaleOf(st)
      case Some(c) => if c <= 0.0 then None else Some(next.(scale := w.scale * c))
      case None =>
        if st.body.kind == "ewise2_f16" then
          if w.causal || !IsCausalMask(g.tensors, st, p.d, p.lookup) then None
          else Some(next.(causal := true, masks := w.masks + [MaskKey(g.tensors, st)]))
        else if IsSoftmax(st) then
          if st.body.kind == "softmax_f16" && Number(st, "K") != p.d.n then None
          else if st.body.kind == "softmax_dim_f16" && (NumberOr(st, "inner", 1) != 1 || Number(st, "R") != p.d.n || Text_(st, "log_out") != "") then None
          else Some(next.(act := Some(Softmax)))
        else if IsRelu(st) then Some(next.(act := Some(Relu)))
        else None
  }

  datatype Move = Stuck | Reached(pv: nat, w: Walk) | On(w: Walk)

  predicate IsPlainBmm(o: Op) { IsBmm(o) && o.subOps == [] }

  /** With no stage left, on to the next op. */
  function NextOp(g: Net, w: Walk): (r: Move)
    requires Listed(g.ops) && w.at < |g.ops|
    ensures r.On? ==> w.at < r.w.at < |g.ops| && r.w.pending != []
    ensures r.Reached? ==> w.at < r.pv < |g.ops| && IsPlainBmm(g.ops[r.pv])
  {
    match Follow(g, w.at)
    case None => Stuck
    case Some(f) =>
      var o := g.ops[f.op];
      var after := w.(absorbed := w.absorbed + f.views);
      if IsPlainBmm(o) then Reached(f.op, after)
      else if w.act.Some? then Stuck
      else if exists s :: s in StagesOf(o) && s.subOps != [] then Stuck
      else On(after.(absorbed := after.absorbed + [f.op], pending := StagesOf(o), at := f.op))
  }

  function WalkFrom(g: Net, p: Problem, w: Walk): (r: Option<(Walk, nat)>)
    requires Listed(g.ops) && w.at < |g.ops|
    ensures r.Some? ==> w.at < r.value.1 < |g.ops| && IsPlainBmm(g.ops[r.value.1])
    decreases |g.ops| - w.at, |w.pending|
  {
    if w.pending == [] then
      match NextOp(g, w)
      case Stuck => None
      case Reached(pv, w2) => Some((w2, pv))
      case On(w2) => WalkFrom(g, p, w2)
    else
      match TakeStage(g, p, w)
      case None => None
      case Some(w2) => WalkFrom(g, p, w2)
  }

  datatype Match = Match(head: nat, pv: nat, absorbed: seq<nat>, d: Dims, inner: int, dv: int,
                         scale: real, causal: bool, act: Act, masks: seq<Name>)

  function StartAt(g: Net, head: nat): Walk
    requires head < |g.ops|
  {
    Walk(1.0, false, None, [], [head], StagesOf(g.ops[head])[1..], head)
  }

  function DimsOf(st: Op): Option<Dims> {
    if Number(st, "batch") >= 0 && Number(st, "M") >= 0 && Number(st, "N") >= 0
    then Some(Dims(Number(st, "batch"), Number(st, "M"), Number(st, "N"))) else None
  }

  function MatchAt(g: Net, head: nat, lookup: Lookup): Option<Match>
    requires Listed(g.ops) && head < |g.ops|
  {
    var st0 := StagesOf(g.ops[head])[0];
    if !IsBmm(st0) || DimsOf(st0).None? then None
    else
      var d := DimsOf(st0).value;
      match WalkFrom(g, Problem(d, lookup), StartAt(g, head))
      case None => None
      case Some((w, pv)) =>
        var ps := g.ops[pv];
        if w.act.None? then None
        else if Number(ps, "batch") != d.batch || Number(ps, "M") != d.m || Number(ps, "K") != d.n then None
        else if Number(st0, "K") > MAXD || Number(ps, "N") > MAXD then None
        else Some(Match(head, pv, w.absorbed, d, Number(st0, "K"), Number(ps, "N"), w.scale, w.causal, w.act.value, w.masks))
  }

  method FindMatch(g: Net, head: nat, lookup: Lookup) returns (r: Option<Match>)
    requires Listed(g.ops) && head < |g.ops|
    ensures r == MatchAt(g, head, lookup)
  {
    hide Follow, IsCausalMask;
    var st0 := StagesOf(g.ops[head])[0];
    if !IsBmm(st0) || DimsOf(st0).None? { return None; }
    var p := Problem(DimsOf(st0).value, lookup);
    var w := StartAt(g, head);
    var pv: nat := 0;
    while true
      invariant w.at < |g.ops|
      invariant WalkFrom(g, p, w) == WalkFrom(g, p, StartAt(g, head))
      decreases |g.ops| - w.at, |w.pending|
    {
      if w.pending == [] {
        var move := NextOp(g, w);
        if move.Stuck? { return None; }
        if move.Reached? {
          pv, w := move.pv, move.w;
          break;
        }
        w := move.w;
      } else {
        var taken := TakeStage(g, p, w);
        if taken.None? { return None; }
        w := taken.value;
      }
    }
    assert WalkFrom(g, p, StartAt(g, head)) == Some((w, pv));
    var ps := g.ops[pv];
    if w.act.None? { return None; }
    if Number(ps, "batch") != p.d.batch || Number(ps, "M") != p.d.m || Number(ps, "K") != p.d.n { return None; }
    if Number(st0, "K") > MAXD || Number(ps, "N") > MAXD { return None; }
    return Some(Match(head, pv, w.absorbed, p.d, Number(st0, "K"), Number(ps, "N"), w.scale, w.causal, w.act.value, w.masks));
  }

  // ---------------------------------------------------------------- steps of the walk

  lemma TakingShrinks(g: Net, p: Problem, w: Walk)
    requires w.pending != [] && TakeStage(g, p, w).Some?
    ensures var v := TakeStage(g, p, w).value; v.at == w.at && |v.pending| < |w.pending| && v.absorbed == w.absorbed
  {
    hide IsCausalMask;
  }
}
