/** Collapsing an attention chain keeps the value of every tensor that stays
    (pipeline/attention_fuse.py).

    The match looks at kinds, shapes and readers only. It never asks whether an op hands on what its
    last stage made, whether a stage reads the one before it, or whether further outputs are used;
    `CleanMatch` does. */
module AttentionMeaning {
  import opened Ir
  import opened Schedules
  import opened Attention
  import opened AttentionKernels
  import opened AttentionFuse

  // ---------------------------------------------------------------- what the match does not check

  /** The first output is named once. */
  ghost predicate FirstAlone(o: Op) { o.outputs != [] && o.outputs[0] !in o.outputs[1..] }

  /** No size is negative, and operand 0 is read in order. */
  ghost predicate LaidOut(st: Op) {
    && (forall k :: 0 <= k < 6 ==> Number(st, DIMS[k]) >= 0)
    && forall i :: 0 <= i < Product(st, 6) ==> Lies(st, STRIDES_A, 6, i) == i
  }

  /** A stage without stages of its own; a mask is laid over a contiguous operand. */
  ghost predicate CleanStage(st: Op) {
    && st.subOps == [] && FirstAlone(st) && st.inputs != []
    && (IsMaskedFill(st) ==> LaidOut(st))
  }

  /** Stage `j` reads the stage before it as operand 0. */
  ghost predicate Chained(s: seq<Op>, j: nat)
    requires j < |s|
  {
    CleanStage(s[j]) && (j > 0 ==> s[j - 1].outputs != [] && s[j].inputs[0] == s[j - 1].outputs[0])
  }

  /** The op's first result is what its last stage made. */
  ghost predicate CleanOp(o: Op) {
    var s := StagesOf(o);
    && o.outputs != [] && s[|s| - 1].outputs != [] && o.outputs[0] == s[|s| - 1].outputs[0]
    && (forall j: nat :: j < |s| ==> Chained(s, j))
    && (o.body.kind == "view" ==> o.subOps == [])
  }

  /** Op `r` reads the result of op `a` as operand 0 of its first stage. */
  ghost predicate ReadsFirst(g: Net, a: nat, r: nat) {
    && a < |g.ops| && r < |g.ops| && g.ops[a].outputs != []
    && StagesOf(g.ops[r])[0].inputs != [] && StagesOf(g.ops[r])[0].inputs[0] == Out(g, a)
  }

  ghost predicate CleanLink(g: Net, chain: seq<nat>, last: nat, k: nat)
    requires k < |chain|
  {
    && chain[k] < |g.ops| && CleanOp(g.ops[chain[k]])
    && ReadsFirst(g, chain[k], if k + 1 < |chain| then chain[k + 1] else last)
  }

  ghost predicate CleanChain(g: Net, chain: seq<nat>, last: nat) {
    forall k: nat :: k < |chain| ==> CleanLink(g, chain, last, k)
  }

  /** `t` is a further output of op `d`, which goes away. */
  ghost predicate Further(g: Net, m: Match, d: nat, t: Name)
    requires Inside(g, m)
  {
    d < |g.ops| && g.ops[d].name in DeadNames(g, m) && g.ops[d].outputs != [] && t in g.ops[d].outputs[1..]
  }

  /** Further outputs of what goes away are used by nobody, the replacement included. */
  ghost predicate FurtherUnused(g: Net, m: Match)
    requires Inside(g, m)
  {
    forall d: nat, t :: Further(g, m, d, t) ==> Unmissed(g, m, t) && t !in g.ops[m.pv].inputs
  }

  /** The first output of each absorbed op is what its last stage made; each stage reads the one before
      it as operand 0, the second bmm reads the probabilities as its first matrix, and further outputs
      are used by nobody. */
  ghost predicate CleanMatch(g: Net, m: Match) {
    Inside(g, m) && FirstAlone(g.ops[m.pv]) && CleanChain(g, m.absorbed, m.pv) && FurtherUnused(g, m)
  }

  // ---------------------------------------------------------------- constants

  predicate IsConst(tensors: Tensors, t: Name) { t in tensors && tensors[t].const_ != "" }

  /** Nothing writes a constant. */
  ghost predicate ConstantsStay(g: Net) {
    forall o, st, t :: o in g.ops && (st == o || st in StagesOf(o)) && t in st.outputs ==> !IsConst(g.tensors, t)
  }

  /** Constants hold what the lookup says, and a mask that was verified earlier is one. */
  ghost predicate Honest(g: Net, m: Match, lookup: Lookup, e: Env) {
    && (forall t, v :: IsConst(g.tensors, t) && lookup(g.tensors[t].const_) == Some(Values(v)) ==> Read(e, t) == v)
    && (forall a, st :: a in m.absorbed && a < |g.ops| && st in StagesOf(g.ops[a]) ==> HonestMask(g, m.d, lookup, e, st))
  }

  ghost predicate HonestMask(g: Net, d: Dims, lookup: Lookup, e: Env, st: Op) {
    IsMaskedFill(st) && MaskKey(g.tensors, st) != "" && lookup(MaskKey(g.tensors, st)) == Some(Const.Text(VERIFIED_TRIU)) ==>
      Product(st, 6) == d.batch * d.m * d.n && IsTriu(Read(e, st.inputs[1]), st, d)
  }

  // ---------------------------------------------------------------- scores

  /** Scaled scores, later keys hidden when causal. */
  function Scores(d: Dims, scale: real, causal: bool, base: Value): (r: Value)
    ensures |r| == |base|
    ensures forall i :: 0 <= i < |r| ==> r[i] == ScoreOf(d, scale, causal, base[i], i)
  {
    seq(|base|, i requires 0 <= i < |base| => ScoreOf(d, scale, causal, base[i], i))
  }

  function ScoreOf(d: Dims, scale: real, causal: bool, x: Num, i: nat): Num {
    if d.m == 0 || d.n == 0 then NaN
    else if causal && i % d.n > i / d.n % d.m then NegInf
    else Mul(Fin(scale), x)
  }

  /** What the walk has computed so far. */
  function Expected(soft: Soft, d: Dims, base: Value, scale: real, causal: bool, act: Option<Act>): Value {
    var s := Scores(d, scale, causal, base);
    if act.None? then s else ActRows(soft, act.value, d.n, s)
  }

  lemma ScaledScores(d: Dims, scale: real, c: real, product: real, causal: bool, base: Value)
    requires scale > 0.0 && c > 0.0 && product == scale * c
    ensures Scaled(c, Scores(d, scale, causal, base)) == Scores(d, product, causal, base)
  {
    forall i | 0 <= i < |base|
      ensures Mul(Fin(c), ScoreOf(d, scale, causal, base[i], i)) == ScoreOf(d, product, causal, base[i], i)
    {
      MulTwice(scale, c, base[i]);
    }
  }

  lemma UnscaledScores(d: Dims, base: Value)
    requires |base| > 0 ==> d.m > 0 && d.n > 0
    ensures Scores(d, 1.0, false, base) == base
  {
  }

  lemma IndexSplits(batch: nat, m: nat, n: nat, i: nat)
    requires m > 0 && n > 0 && i < batch * m * n
    ensures i / n / m < batch && (i / n / m * m + i / n % m) * n + i % n == i
  {
    var r := i / n;
    assert i == r * n + i % n;
    assert r == r / m * m + r % m;
    if r / m >= batch {
      Grows(batch, r / m, m);
      Grows(batch * m, r, n);
      assert false;
    }
  }

  lemma Grows(a: nat, b: nat, c: nat)
    requires a <= b
    ensures a * c <= b * c
  {
  }

  lemma ReadsInOrder(st: Op, i: nat)
    requires CleanStage(st) && IsMaskedFill(st) && i < Product(st, 6)
    ensures Lies(st, STRIDES_A, 6, i) == i
  {
    hide Lies, Product;
  }

  /** The mask as the check reads it is the mask as the kernel reads it. */
  lemma MaskReadAlike(st: Op, mask: Value, i: nat)
    requires CleanStage(st) && IsMaskedFill(st) && i < Product(st, 6)
    ensures MaskSet(mask, st, i) == MaskAt(mask, st, i)
  {
    ProductIsAll(st, 6);
    SizesFrom(st, 0);
    OffsetIsPlace(st, STRIDES_B, i);
    hide Lies, Offset, Product, After;
  }

  lemma FilledAt(st: Op, d: Dims, mask: Value, i: nat)
    requires i < d.batch * d.m * d.n && IsTriu(mask, st, d)
    ensures d.m > 0 && d.n > 0 && MaskAt(mask, st, i) == (i % d.n > i / d.n % d.m)
  {
    hide *;
    NonzeroFactors(d.batch, d.m, d.n);
    IndexSplits(d.batch, d.m, d.n, i);
    TriuAt(mask, st, d, i / d.n / d.m, i / d.n % d.m, i % d.n);
  }

  lemma FilledScores(st: Op, d: Dims, scale: real, base: Value, mask: Value)
    requires CleanStage(st) && IsMaskedFill(st) && |base| == d.batch * d.m * d.n == Product(st, 6) && IsTriu(mask, st, d)
    ensures Filled(st, Scores(d, scale, false, base), mask) == Scores(d, scale, true, base)
  {
    ProductIsAll(st, 6);
    assert After(st, 6) == 1;
    hide IsTriu, Mul, Lies, Product, After, MaskAt, MaskSet, CleanStage, IsMaskedFill;
    var x := Scores(d, scale, false, base);
    forall i | 0 <= i < |base|
      ensures Filled(st, x, mask)[i] == Scores(d, scale, true, base)[i]
    {
      hide Filled, Scores;
      FilledAt(st, d, mask, i);
      ReadsInOrder(st, i);
      MaskReadAlike(st, mask, i);
    }
  }

  lemma TriuAt(values: Value, o: Op, d: Dims, b: nat, m: nat, n: nat)
    requires IsTriu(values, o, d) && b < d.batch && m < d.m && n < d.n
    ensures MaskAt(values, o, (b * d.m + m) * d.n + n) == (n > m)
  {
    assert MaskedAt(values, o, d, b, m, n) == (n > m);
    hide MaskAt;
  }

  lemma NonzeroFactors(a: nat, b: nat, c: nat)
    requires a * b * c > 0
    ensures b > 0 && c > 0
  {
    assert b == 0 ==> a * b == 0;
  }

  lemma ReluRows(soft: Soft, n: nat, x: Value)
    requires |x| > 0 ==> n > 0
    ensures ReluAll(x) == ActRows(soft, Act.Relu, n, x)
  {
    forall i | 0 <= i < |x|
      ensures ReluAll(x)[i] == ActRows(soft, Act.Relu, n, x)[i]
    {
      assert i / n * n + i % n == i;
    }
  }

  // ---------------------------------------------------------------- one stage

  /** A plain op leaves in its output what its kernel means. */
  lemma StageMakes(k: Kernels, soft: Soft, st: Op, e: Env)
    requires Interprets(k, soft) && CleanStage(st) && Meant(soft, st, ReadAll(e, st.inputs)).Some?
    ensures Read(Exec(k, st, e), st.outputs[0]) == Meant(soft, st, ReadAll(e, st.inputs)).value
  {
    var vs := ReadAll(e, st.inputs);
    assert Gives(k, st, vs, Meant(soft, st, vs).value);
    hide Meant, CleanStage;
    OneLong(st);
    WriteFirst(e, st.outputs, k(st.body, vs));
  }

  lemma OneLong(st: Op)
    requires CleanStage(st)
    ensures st.outputs != [] && st.outputs[0] !in st.outputs[1..] && st.subOps == [] && st.inputs != []
  {
  }

  lemma WriteFirst(e: Env, ts: seq<Name>, vs: seq<Value>)
    requires ts != [] && vs != [] && ts[0] !in ts[1..]
    ensures Read(Write(e, ts, vs), ts[0]) == vs[0]
  {
    WriteReads(e[ts[0] := vs[0]], ts[1..], vs[1..], ts[0]);
  }

  /** One accepted stage turns the expected value into the next expected value. */
  lemma TakenValue(soft: Soft, g: Net, p: Problem, w: Walk, base: Value, vs: seq<Value>)
    requires w.pending != [] && TakeStage(g, p, w).Some? && CleanStage(w.pending[0]) && w.scale > 0.0
    requires |base| == p.d.batch * p.d.m * p.d.n && |vs| == |w.pending[0].inputs|
    requires vs[0] == Expected(soft, p.d, base, w.scale, w.causal, w.act)
    requires w.pending[0].body.kind == "ewise2_f16" ==> |vs| >= 2 && Product(w.pending[0], 6) == |base| && IsTriu(vs[1], w.pending[0], p.d)
    ensures var v := TakeStage(g, p, w).value;
      && v.scale > 0.0 && Meant(soft, w.pending[0], vs) == Some(Expected(soft, p.d, base, v.scale, v.causal, v.act))
  {
    var st, v := w.pending[0], TakeStage(g, p, w).value;
    var s := Scores(p.d, w.scale, w.causal, base);
    hide Scores, Filled, Scaled, ReluAll, ActRows, IsTriu, CleanStage;
    assert w.act.None? && vs[0] == s;
    if ScaleOf(st).Some? {
      TakenScale(soft, g, p, w, base, vs);
    } else if st.body.kind == "ewise2_f16" {
      FilledScores(st, p.d, w.scale, base, vs[1]);
    } else if IsRelu(st) {
      if |base| > 0 { NonzeroFactors(p.d.batch, p.d.m, p.d.n); }
      ReluRows(soft, p.d.n, s);
    }
  }

  lemma TakenScale(soft: Soft, g: Net, p: Problem, w: Walk, base: Value, vs: seq<Value>)
    requires w.pending != [] && TakeStage(g, p, w).Some? && ScaleOf(w.pending[0]).Some? && w.scale > 0.0
    requires vs != [] && vs[0] == Scores(p.d, w.scale, w.causal, base)
    ensures var v := TakeStage(g, p, w).value;
      && v.scale > 0.0 && v.act.None? && Meant(soft, w.pending[0], vs) == Some(Scores(p.d, v.scale, v.causal, base))
  {
    var st, c := w.pending[0], ScaleOf(w.pending[0]).value;
    ScaleIsMeant(soft, st, vs);
    hide ScaleOf, Scores, Scaled, Meant;
    ScaledScores(p.d, w.scale, c, TakeStage(g, p, w).value.scale, w.causal, base);
    PositiveProduct(w.scale, c);
  }

  /** The factor the match takes from a stage is what the stage's kernel multiplies with. */
  lemma ScaleIsMeant(soft: Soft, st: Op, vs: seq<Value>)
    requires ScaleOf(st).Some? && vs != []
    ensures Meant(soft, st, vs) == Some(Scaled(ScaleOf(st).value, vs[0]))
  {
    if st.body.kind == "ewise_scalar_f16" && Number(st, "opc") == 4 {
      var c := st.body.quant["c"];
      hide Mul, Over;
      forall i | 0 <= i < |vs[0]|
        ensures Divided(c, vs[0])[i] == Scaled(1.0 / c, vs[0])[i]
      {
        OverIsTimes(vs[0][i], c);
      }
      assert Divided(c, vs[0]) == Scaled(1.0 / c, vs[0]);
    }
  }

  lemma ScaleKinds(st: Op)
    requires ScaleOf(st).Some?
    ensures !IsBmm(st)
  {
    assert |st.body.kind| > |"bmm_f16"|;
  }

  lemma PositiveProduct(a: real, b: real)
    requires a > 0.0 && b > 0.0
    ensures a * b > 0.0
  {
  }

  // ---------------------------------------------------------------- the walk on values

  /** A match in a graph whose equations `e` solves; `base` is what the score bmm makes. */
  datatype Case = Case(k: Kernels, soft: Soft, g: Net, p: Problem, m: Match, base: Value, e: Env)

  ghost predicate AllHold(k: Kernels, ops: seq<Op>, e: Env) {
    forall o :: o in ops ==> Holds(k, o, e)
  }

  ghost predicate Fair(c: Case) {
    && Interprets(c.k, c.soft) && Listed(c.g.ops) && AllHold(c.k, c.g.ops, c.e)
    && ConstantsStay(c.g) && Honest(c.g, c.m, c.p.lookup, c.e) && c.p.d == c.m.d
    && |c.base| == c.p.d.batch * c.p.d.m * c.p.d.n
  }

  ghost predicate InOp(g: Net, w: Walk) {
    && w.at < |g.ops| && |w.pending| <= |StagesOf(g.ops[w.at])|
    && w.pending == StagesOf(g.ops[w.at])[|StagesOf(g.ops[w.at])| - |w.pending|..]
  }

  /** The stages of the current op that the walk has passed. */
  ghost function Passed(g: Net, w: Walk): seq<Op>
    requires InOp(g, w)
  {
    StagesOf(g.ops[w.at])[..|StagesOf(g.ops[w.at])| - |w.pending|]
  }

  ghost function First(e: Env, ts: seq<Name>): Value { if ts == [] then [] else Read(e, ts[0]) }

  /** What the next stage reads, or the op's result when no stage is left. */
  ghost function Carried(k: Kernels, g: Net, w: Walk, e: Env): Value
    requires InOp(g, w)
  {
    if w.pending == [] then First(e, g.ops[w.at].outputs) else First(Run(k, Passed(g, w), e), w.pending[0].inputs)
  }

  ghost predicate Carries(c: Case, w: Walk) {
    InOp(c.g, w) && w.scale > 0.0 && Carried(c.k, c.g, w, c.e) == Expected(c.soft, c.p.d, c.base, w.scale, w.causal, w.act)
  }

  /** An op is the run of its stages. */
  lemma OpIsStages(k: Kernels, o: Op, e: Env, t: Name)
    requires t in o.outputs
    ensures Read(Exec(k, o, e), t) == Read(Run(k, StagesOf(o), e), t)
  {
    if o.subOps == [] {
      RunOne(k, o, e);
    } else {
      ExecFused(k, o, e, t);
    }
  }

  lemma ChainedAt(o: Op, j: nat)
    requires CleanOp(o) && j < |StagesOf(o)|
    ensures Chained(StagesOf(o), j)
  {
  }

  lemma LastMakes(o: Op)
    requires CleanOp(o)
    ensures o.outputs != [] && StagesOf(o)[|StagesOf(o)| - 1].outputs != [] && o.outputs[0] == StagesOf(o)[|StagesOf(o)| - 1].outputs[0]
  {
  }

  lemma HeldOutput(k: Kernels, o: Op, e: Env, t: Name)
    requires Holds(k, o, e) && t in o.outputs
    ensures Read(e, t) == Read(Run(k, StagesOf(o), e), t)
  {
    OpIsStages(k, o, e, t);
    hide Exec, Run;
  }

  /** Passing one stage. */
  lemma PassOne(k: Kernels, g: Net, w: Walk, v: Walk, e: Env)
    requires InOp(g, w) && w.pending != [] && v.at == w.at && v.pending == w.pending[1..]
    ensures InOp(g, v) && Passed(g, v) == Passed(g, w) + [w.pending[0]]
    ensures Run(k, Passed(g, v), e) == Exec(k, w.pending[0], Run(k, Passed(g, w), e))
  {
    var s := StagesOf(g.ops[w.at]);
    var j := |s| - |w.pending|;
    hide Run, Exec, StagesOf;
    assert s[..j + 1] == s[..j] + [s[j]];
    RunAppend(k, s[..j], [s[j]], e);
    RunOne(k, s[j], Run(k, s[..j], e));
  }

  /** What one stage makes is what comes next. */
  lemma CarriedOn(k: Kernels, g: Net, w: Walk, v: Walk, e: Env)
    requires InOp(g, w) && w.pending != [] && CleanOp(g.ops[w.at]) && Holds(k, g.ops[w.at], e)
    requires v.at == w.at && v.pending == w.pending[1..]
    ensures CleanStage(w.pending[0]) && InOp(g, v)
    ensures Carried(k, g, v, e) == Read(Exec(k, w.pending[0], Run(k, Passed(g, w), e)), w.pending[0].outputs[0])
  {
    var o := g.ops[w.at];
    var s := StagesOf(o);
    var j := |s| - |w.pending|;
    hide Run, Exec, StagesOf, Holds, CleanOp, CleanStage;
    PassOne(k, g, w, v, e);
    ChainedAt(o, j);
    LastMakes(o);
    OneLong(s[j]);
    if j + 1 == |s| {
      assert s[..j + 1] == s;
      HeldOutput(k, o, e, o.outputs[0]);
    } else {
      ChainedAt(o, j + 1);
      OneLong(s[j + 1]);
    }
  }

  /** A stage sees a constant as it is outside. */
  lemma ConstantInside(c: Case, w: Walk, t: Name)
    requires Fair(c) && InOp(c.g, w) && IsConst(c.g.tensors, t)
    ensures Read(Run(c.k, Passed(c.g, w), c.e), t) == Read(c.e, t)
  {
    var o := c.g.ops[w.at];
    assert o in c.g.ops;
    forall st | st in Passed(c.g, w)
      ensures t !in st.outputs
    {
      assert st in StagesOf(o);
    }
    RunFrame(c.k, Passed(c.g, w), c.e, t);
  }

  /** An accepted mask hides the later keys. */
  lemma MaskSeen(c: Case, w: Walk)
    requires Fair(c) && InOp(c.g, w) && w.at in c.m.absorbed && w.pending != []
    requires IsCausalMask(c.g.tensors, w.pending[0], c.p.d, c.p.lookup)
    ensures var st := w.pending[0]; var vs := ReadAll(Run(c.k, Passed(c.g, w), c.e), st.inputs);
      |vs| >= 2 && Product(st, 6) == |c.base| && IsTriu(vs[1], st, c.p.d)
  {
    var st := w.pending[0];
    var key, t := MaskKey(c.g.tensors, st), st.inputs[1];
    assert IsConst(c.g.tensors, t) && c.g.tensors[t].const_ == key;
    ConstantInside(c, w, t);
    assert st in StagesOf(c.g.ops[w.at]);
    hide IsTriu, Product, Interprets, Listed, AllHold, ConstantsStay;
    match c.p.lookup(key)
    case Some(Values(v)) =>
      assert Read(c.e, t) == v;
    case Some(Text(_)) =>
      assert HonestMask(c.g, c.m.d, c.p.lookup, c.e, st);
  }

  lemma TakenKind(g: Net, p: Problem, w: Walk)
    requires w.pending != [] && TakeStage(g, p, w).Some?
    ensures var v := TakeStage(g, p, w).value; v.at == w.at && v.pending == w.pending[1..] && v.absorbed == w.absorbed
    ensures w.pending[0].body.kind == "ewise2_f16" ==> IsCausalMask(g.tensors, w.pending[0], p.d, p.lookup)
  {
    assert |"ewise2_f16"| < |"mul_scalar_f16"|;
    hide IsCausalMask;
  }

  lemma TakingCarries(c: Case, w: Walk)
    requires Fair(c) && Carries(c, w) && w.at in c.m.absorbed && CleanOp(c.g.ops[w.at])
    requires w.pending != [] && TakeStage(c.g, c.p, w).Some?
    ensures Carries(c, TakeStage(c.g, c.p, w).value)
  {
    var v, st := TakeStage(c.g, c.p, w).value, w.pending[0];
    var e := Run(c.k, Passed(c.g, w), c.e);
    var vs := ReadAll(e, st.inputs);
    assert c.g.ops[w.at] in c.g.ops;
    TakenKind(c.g, c.p, w);
    CarriedOn(c.k, c.g, w, v, c.e);
    OneLong(st);
    if st.body.kind == "ewise2_f16" {
      MaskSeen(c, w);
    }
    assert vs[0] == Expected(c.soft, c.p.d, c.base, w.scale, w.causal, w.act);
    hide *;
    FairParts(c);
    TakenValue(c.soft, c.g, c.p, w, c.base, vs);
    StageMakes(c.k, c.soft, st, e);
    CarriesIf(c, v);
  }

  lemma FairParts(c: Case)
    requires Fair(c)
    ensures Interprets(c.k, c.soft) && |c.base| == c.p.d.batch * c.p.d.m * c.p.d.n
  {
  }

  lemma CarriesIf(c: Case, w: Walk)
    requires InOp(c.g, w) && w.scale > 0.0
    ensures Carries(c, w) <==> Carried(c.k, c.g, w, c.e) == Expected(c.soft, c.p.d, c.base, w.scale, w.causal, w.act)
  {
    hide InOp, Carried, Expected;
  }

  /** Part of a clean chain is clean. */
  lemma CleanPart(g: Net, all: seq<nat>, last: nat, before: seq<nat>, at: nat, views: seq<nat>, op: nat)
    requires CleanChain(g, all, last) && before != [] && before[|before| - 1] == at
    requires before + views + [op] <= all || (before + views == all && op == last)
    ensures CleanChain(g, [at] + views, op)
  {
    var chain := [at] + views;
    var d := |before| - 1;
    forall k: nat | k < |chain|
      ensures CleanLink(g, chain, op, k)
    {
      assert CleanLink(g, all, last, d + k);
      assert before + views == before[..d] + chain;
      assert (before + views)[d + k] == chain[k];
    }
  }

  lemma ReaderIsLater(ops: seq<Op>, a: nat, r: nat)
    requires Listed(ops) && a < |ops| && r < |ops|
    ensures ops[a].outputs != [] && (ops[a].outputs[0] in ops[r].inputs ==> a < r)
  {
    assert ops[a] in ops;
  }

  /** One step of following: the reader, and whether it is a view. */
  lemma FollowStep(g: Net, at: nat)
    requires Listed(g.ops) && at < |g.ops| && Follow(g, at).Some?
    ensures g.ops[at].outputs != []
    ensures var f := Follow(g, at).value; var t := g.ops[at].outputs[0];
      (f.views == [] && f.tensor == t) ||
      (f.views != [] && at < f.views[0] < |g.ops| && IsView(g.ops[f.views[0]]) && Follow(g, f.views[0]).Some?
       && var rest := Follow(g, f.views[0]).value; f.op == rest.op && f.tensor == rest.tensor && f.views[1..] == rest.views)
  {
    hide Readers, IsView, Listed;
    ReaderIsLater(g.ops, at, at);
    var readers := Readers(g.ops, g.ops[at].outputs[0], |g.ops|);
    assert |readers| == 1;
    ReaderIsLater(g.ops, at, readers[0]);
  }

  /** Views hand on what they read. */
  lemma {:induction false} FollowCarries(c: Case, at: nat)
    requires Interprets(c.k, c.soft) && Listed(c.g.ops) && AllHold(c.k, c.g.ops, c.e)
    requires at < |c.g.ops| && Follow(c.g, at).Some?
    requires var f := Follow(c.g, at).value; CleanChain(c.g, [at] + f.views, f.op)
    ensures var f := Follow(c.g, at).value; var st := StagesOf(c.g.ops[f.op])[0];
      st.inputs != [] && st.inputs[0] == f.tensor && Read(c.e, f.tensor) == First(c.e, c.g.ops[at].outputs)
    decreases |c.g.ops| - at
  {
    var g, f := c.g, Follow(c.g, at).value;
    var chain := [at] + f.views;
    hide Interprets, Listed, AllHold, Follow, IsView, CleanOp;
    FollowStep(g, at);
    assert CleanLink(g, chain, f.op, 0);
    if f.views != [] {
      var r, tail := f.views[0], f.views;
      assert tail == [r] + f.views[1..];
      forall k: nat | k < |tail|
        ensures CleanLink(g, tail, f.op, k)
      {
        assert CleanLink(g, chain, f.op, k + 1);
      }
      assert CleanLink(g, tail, f.op, 0);
      FollowCarries(c, r);
      ViewCarries(c, r, g.ops[at].outputs[0]);
    }
  }

  lemma ViewCarries(c: Case, r: nat, t: Name)
    requires Interprets(c.k, c.soft) && AllHold(c.k, c.g.ops, c.e) && r < |c.g.ops|
    requires IsView(c.g.ops[r]) && CleanOp(c.g.ops[r])
    requires StagesOf(c.g.ops[r])[0].inputs != [] && StagesOf(c.g.ops[r])[0].inputs[0] == t
    ensures First(c.e, c.g.ops[r].outputs) == Read(c.e, t)
  {
    var o := c.g.ops[r];
    ChainedAt(o, 0);
    assert o in c.g.ops && Holds(c.k, o, c.e);
    var vs := ReadAll(c.e, o.inputs);
    assert Meant(c.soft, o, vs) == Some(vs[0]);
    StageMakes(c.k, c.soft, o, c.e);
    OneLong(o);
  }

  lemma {:induction false} WalkExtends(g: Net, p: Problem, w: Walk)
    requires Listed(g.ops) && w.at < |g.ops| && WalkFrom(g, p, w).Some?
    ensures w.absorbed <= WalkFrom(g, p, w).value.0.absorbed
    decreases |g.ops| - w.at, |w.pending|
  {
    hide Follow, TakeStage, Listed;
    if w.pending == [] {
      if NextOp(g, w).On? {
        WalkExtends(g, p, NextOp(g, w).w);
      }
    } else {
      TakenKind(g, p, w);
      WalkExtends(g, p, TakeStage(g, p, w).value);
    }
  }

  /** The walk stands behind the last absorbed op. */
  ghost predicate AtLast(w: Walk) { w.absorbed != [] && w.absorbed[|w.absorbed| - 1] == w.at }

  /** Reaching the next op: the score it reads is the score so far. */
  lemma MovingCarries(c: Case, w: Walk)
    requires Fair(c) && Carries(c, w) && w.pending == [] && AtLast(w) && CleanChain(c.g, c.m.absorbed, c.m.pv)
    requires !NextOp(c.g, w).Stuck?
    requires NextOp(c.g, w).On? ==> NextOp(c.g, w).w.absorbed <= c.m.absorbed
    requires NextOp(c.g, w).Reached? ==> NextOp(c.g, w).w.absorbed == c.m.absorbed && NextOp(c.g, w).pv == c.m.pv
    ensures NextOp(c.g, w).On? ==> Carries(c, NextOp(c.g, w).w) && AtLast(NextOp(c.g, w).w)
    ensures NextOp(c.g, w).Reached? ==>
      First(c.e, c.g.ops[c.m.pv].inputs) == Expected(c.soft, c.p.d, c.base, w.scale, w.causal, w.act)
  {
    var move, f := NextOp(c.g, w), Follow(c.g, w.at).value;
    assert w.absorbed + f.views + [f.op] == (w.absorbed + f.views) + [f.op];
    hide Follow, Interprets, Listed, AllHold, ConstantsStay, Honest, CleanChain, Expected;
    CleanPart(c.g, c.m.absorbed, c.m.pv, w.absorbed, w.at, f.views, f.op);
    FollowCarries(c, w.at);
    if move.On? {
      assert Passed(c.g, move.w) == [];
    }
  }

  lemma {:induction false} WalkCarries(c: Case, w: Walk)
    requires Fair(c) && Carries(c, w) && AtLast(w) && CleanChain(c.g, c.m.absorbed, c.m.pv) && w.absorbed <= c.m.absorbed
    requires WalkFrom(c.g, c.p, w).Some? && WalkFrom(c.g, c.p, w).value.0.absorbed == c.m.absorbed && WalkFrom(c.g, c.p, w).value.1 == c.m.pv
    ensures var v := WalkFrom(c.g, c.p, w).value.0;
      First(c.e, c.g.ops[c.m.pv].inputs) == Expected(c.soft, c.p.d, c.base, v.scale, v.causal, v.act)
    decreases |c.g.ops| - w.at, |w.pending|
  {
    hide Fair, Carries, CleanChain, TakeStage, NextOp, Expected;
    FairListed(c, w);
    if w.pending == [] {
      var move := NextOp(c.g, w);
      MovedKeeps(c.g, w);
      if move.On? {
        WalkExtends(c.g, c.p, move.w);
      }
      MovingCarries(c, w);
      if move.On? {
        WalkCarries(c, move.w);
      }
    } else {
      var v := TakeStage(c.g, c.p, w).value;
      TakenKind(c.g, c.p, w);
      LastIsClean(c, w);
      TakingCarries(c, w);
      WalkCarries(c, v);
    }
  }

  lemma FairListed(c: Case, w: Walk)
    requires Fair(c) && Carries(c, w)
    ensures Listed(c.g.ops) && w.at < |c.g.ops|
  {
  }

  lemma MovedKeeps(g: Net, w: Walk)
    requires Listed(g.ops) && w.at < |g.ops|
    ensures var r := NextOp(g, w);
      && (r.On? ==> w.at < r.w.at < |g.ops| && r.w.pending != [])
      && (!r.Stuck? ==> r.w.scale == w.scale && r.w.causal == w.causal && r.w.act == w.act)
  {
    hide Follow;
  }

  lemma LastIsClean(c: Case, w: Walk)
    requires AtLast(w) && w.absorbed <= c.m.absorbed && CleanChain(c.g, c.m.absorbed, c.m.pv) && w.at < |c.g.ops|
    ensures w.at in c.m.absorbed && CleanOp(c.g.ops[w.at])
  {
    assert CleanLink(c.g, c.m.absorbed, c.m.pv, |w.absorbed| - 1);
    assert c.m.absorbed[|w.absorbed| - 1] == w.at;
  }

  // ---------------------------------------------------------------- the formula

  /** What a match says it computes. */
  function MatchFormula(m: Match): Formula {
    Formula(m.d.batch, m.d.m, m.d.n, Size(m.inner), Size(m.dv), m.scale, m.causal, m.act)
  }

  lemma RowIndex(rows: nat, n: nat, r: nat, k: nat)
    requires k < n && r < rows
    ensures (r * n + k) / n == r && (r * n + k) % n == k && r * n + k < rows * n
  {
    Grows(r + 1, rows, n);
    assert (r + 1) * n == r * n + n;
    var q := (r * n + k) / n;
    if q < r {
      Grows(q + 1, r, n);
    } else if q > r {
      Grows(r + 1, q, n);
    }
  }

  /** Row `r` of the flat scores is the score row of query `r`. */
  lemma ScoreRowIs(f: Formula, q: Value, kT: Value, r: nat)
    requires r < f.batch * f.m
    ensures Slice(Scores(Dims(f.batch, f.m, f.n), f.scale, f.causal, Bmm(f.batch, f.m, f.d, f.n, q, kT)), r * f.n, f.n) == ScoreRow(f, q, kT, r)
  {
    var d := Dims(f.batch, f.m, f.n);
    var base := Bmm(f.batch, f.m, f.d, f.n, q, kT);
    var s := Scores(d, f.scale, f.causal, base);
    assert f.m > 0 by { assert f.m == 0 ==> f.batch * f.m == 0; }
    forall n | 0 <= n < f.n
      ensures Slice(s, r * f.n, f.n)[n] == ScoreRow(f, q, kT, r)[n]
    {
      RowIndex(f.batch * f.m, f.n, r, n);
      assert base[r * f.n + n] == BmmAt(f.m, f.d, f.n, q, kT, r * f.n + n);
      hide Dot, Mul;
    }
  }

  /** Acting on the flat tensor is acting row by row. */
  lemma ActedRowIs(soft: Soft, act: Act, n: nat, rows: nat, x: Value, r: nat)
    requires |x| == rows * n && r < rows
    ensures Slice(ActRows(soft, act, n, x), r * n, n) == ActRow(soft, act, Slice(x, r * n, n))
  {
    forall k | 0 <= k < n
      ensures Slice(ActRows(soft, act, n, x), r * n, n)[k] == ActRow(soft, act, Slice(x, r * n, n))[k]
    {
      RowIndex(rows, n, r, k);
      hide ActRow;
    }
  }

  /** The second bmm of the acted scores is the fused formula. */
  lemma BmmAttends(soft: Soft, f: Formula, q: Value, kT: Value, v: Value)
    ensures var s := Scores(Dims(f.batch, f.m, f.n), f.scale, f.causal, Bmm(f.batch, f.m, f.d, f.n, q, kT));
      Bmm(f.batch, f.m, f.n, f.dv, ActRows(soft, f.act, f.n, s), v) == Attended(soft, f, q, kT, v)
  {
    var s := Scores(Dims(f.batch, f.m, f.n), f.scale, f.causal, Bmm(f.batch, f.m, f.d, f.n, q, kT));
    var a := ActRows(soft, f.act, f.n, s);
    forall j | 0 <= j < f.batch * f.m * f.dv
      ensures BmmAt(f.m, f.n, f.dv, a, v, j) == AttendedAt(soft, f, q, kT, v, j)
    {
      hide *;
      OneElement(soft, f, q, kT, v, a, j);
    }
  }

  lemma OneElement(soft: Soft, f: Formula, q: Value, kT: Value, v: Value, a: Value, j: nat)
    requires j < f.batch * f.m * f.dv
    requires a == ActRows(soft, f.act, f.n, Scores(Dims(f.batch, f.m, f.n), f.scale, f.causal, Bmm(f.batch, f.m, f.d, f.n, q, kT)))
    ensures BmmAt(f.m, f.n, f.dv, a, v, j) == AttendedAt(soft, f, q, kT, v, j)
  {
    hide *;
    NonzeroFactors(f.batch, f.m, f.dv);
    RowInRange(f.batch * f.m, f.dv, j);
    var r: nat := j / f.dv;
    var at := ColumnStart(f, j);
    OneRow(soft, f, q, kT, v, a, r, at);
    ElementsAre(soft, f, q, kT, v, a, j);
  }

  /** Where the column of `v` begins that element `j` of the result needs. */
  function ColumnStart(f: Formula, j: nat): int
    requires f.dv > 0 && f.m > 0
  {
    j / f.dv / f.m * f.n * f.dv + j % f.dv
  }

  lemma ElementsAre(soft: Soft, f: Formula, q: Value, kT: Value, v: Value, a: Value, j: nat)
    requires f.dv > 0 && f.m > 0
    ensures BmmAt(f.m, f.n, f.dv, a, v, j) == Dot(a, j / f.dv * f.n, v, ColumnStart(f, j), f.dv, f.n)
    ensures AttendedAt(soft, f, q, kT, v, j) == Dot(ActRow(soft, f.act, ScoreRow(f, q, kT, j / f.dv)), 0, v, ColumnStart(f, j), f.dv, f.n)
  {
    hide Dot, ActRow, ScoreRow;
  }

  lemma RowInRange(rows: nat, n: nat, j: nat)
    requires n > 0 && j < rows * n
    ensures j / n < rows
  {
    assert j / n * n <= j;
    if j / n >= rows {
      Grows(rows, j / n, n);
    }
  }

  lemma OneRow(soft: Soft, f: Formula, q: Value, kT: Value, v: Value, a: Value, r: nat, at: int)
    requires r < f.batch * f.m
    requires a == ActRows(soft, f.act, f.n, Scores(Dims(f.batch, f.m, f.n), f.scale, f.causal, Bmm(f.batch, f.m, f.d, f.n, q, kT)))
    ensures Dot(a, r * f.n, v, at, f.dv, f.n) == Dot(ActRow(soft, f.act, ScoreRow(f, q, kT, r)), 0, v, at, f.dv, f.n)
  {
    var s := Scores(Dims(f.batch, f.m, f.n), f.scale, f.causal, Bmm(f.batch, f.m, f.d, f.n, q, kT));
    var row := ActRow(soft, f.act, ScoreRow(f, q, kT, r));
    ActedRowIs(soft, f.act, f.n, f.batch * f.m, s, r);
    ScoreRowIs(f, q, kT, r);
    assert Slice(row, 0, f.n) == row;
    SameDot(a, r * f.n, row, 0, v, at, f.dv, f.n);
  }

  // ---------------------------------------------------------------- what the matched ops compute

  lemma HeadCarries(c: Case, head: nat)
    requires Fair(c) && head < |c.g.ops| && CleanOp(c.g.ops[head]) && DimsOf(StagesOf(c.g.ops[head])[0]).Some?
    requires var st0 := StagesOf(c.g.ops[head])[0];
      IsBmm(st0) && |st0.inputs| >= 2 && DimsOf(st0).value == c.p.d && c.base == BmmOf(st0, Read(c.e, st0.inputs[0]), Read(c.e, st0.inputs[1]))
    ensures Carries(c, StartAt(c.g, head))
  {
    var o := c.g.ops[head];
    var st0 := StagesOf(o)[0];
    var w1 := StartAt(c.g, head);
    var w0 := w1.(pending := StagesOf(o));
    assert o in c.g.ops;
    assert Passed(c.g, w0) == [];
    CarriedOn(c.k, c.g, w0, w1, c.e);
    var vs := ReadAll(c.e, st0.inputs);
    assert Meant(c.soft, st0, vs) == Some(c.base);
    StageMakes(c.k, c.soft, st0, c.e);
    if |c.base| > 0 { NonzeroFactors(c.p.d.batch, c.p.d.m, c.p.d.n); }
    UnscaledScores(c.p.d, c.base);
  }

  /** In a graph whose matched ops are clean, the result of the second bmm is the attention formula of
      the match, applied to what the score bmm reads and the second matrix of the second bmm. */
  lemma MatchMeansAttention(k: Kernels, soft: Soft, g: Net, head: nat, lookup: Lookup, e: Env)
    requires Ready(g) && head < |g.ops| && MatchAt(g, head, lookup).Some?
    requires var m := MatchAt(g, head, lookup).value; CleanMatch(g, m) && Honest(g, m, lookup, e)
    requires Interprets(k, soft) && AllHold(k, g.ops, e) && ConstantsStay(g)
    ensures var m := MatchAt(g, head, lookup).value;
      && Usable(g, m)
      && var st0, pv := StagesOf(g.ops[head])[0], g.ops[m.pv];
         Read(e, pv.outputs[0]) == Attended(soft, MatchFormula(m), Read(e, st0.inputs[0]), Read(e, st0.inputs[1]), Read(e, pv.inputs[1]))
  {
    var m := MatchAt(g, head, lookup).value;
    MatchUsable(g, head, lookup);
    MatchIsPrivate(g, head, lookup);
    MatchParts(g, head, lookup);
    var st0, pv := StagesOf(g.ops[head])[0], g.ops[m.pv];
    var base := BmmOf(st0, Read(e, st0.inputs[0]), Read(e, st0.inputs[1]));
    var p := Problem(m.d, lookup);
    var c := Case(k, soft, g, p, m, base, e);
    var w := StartAt(g, head);
    hide MatchAt, WalkFrom, Interprets, Honest, ConstantsStay, BmmOf, Passes, Attended, Meant, ActRows, Scores;
    BmmSize(st0, m.d, Read(e, st0.inputs[0]), Read(e, st0.inputs[1]));
    assert CleanLink(g, m.absorbed, m.pv, 0);
    HeadCarries(c, head);
    WalkExtends(g, p, w);
    WalkCarries(c, w);
    SecondBmm(c, base);
    BmmAttends(soft, MatchFormula(m), Read(e, st0.inputs[0]), Read(e, st0.inputs[1]), Read(e, pv.inputs[1]));
    BmmIs(st0, m, Read(e, st0.inputs[0]), Read(e, st0.inputs[1]));
  }

  /** What a match says about the ops it was found at. */
  lemma MatchParts(g: Net, head: nat, lookup: Lookup)
    requires Listed(g.ops) && head < |g.ops| && MatchAt(g, head, lookup).Some?
    ensures var m := MatchAt(g, head, lookup).value; var st0 := StagesOf(g.ops[head])[0];
      && IsBmm(st0) && DimsOf(st0) == Some(m.d) && m.inner == Number(st0, "K") && m.pv < |g.ops|
      && WalkFrom(g, Problem(m.d, lookup), StartAt(g, head)).Some?
      && (var v := WalkFrom(g, Problem(m.d, lookup), StartAt(g, head)).value;
          v.0.absorbed == m.absorbed && v.1 == m.pv && v.0.scale == m.scale && v.0.causal == m.causal && v.0.act == Some(m.act))
      && IsPlainBmm(g.ops[m.pv]) && Number(g.ops[m.pv], "batch") == m.d.batch && Number(g.ops[m.pv], "M") == m.d.m
      && Number(g.ops[m.pv], "K") == m.d.n && Number(g.ops[m.pv], "N") == m.dv
  {
    hide Listed;
  }

  lemma BmmSize(st0: Op, d: Dims, q: Value, kT: Value)
    requires DimsOf(st0) == Some(d)
    ensures |BmmOf(st0, q, kT)| == d.batch * d.m * d.n
  {
  }

  lemma BmmIs(st0: Op, m: Match, q: Value, kT: Value)
    requires DimsOf(st0) == Some(m.d) && m.inner == Number(st0, "K")
    ensures BmmOf(st0, q, kT) == Bmm(m.d.batch, m.d.m, Size(m.inner), m.d.n, q, kT)
  {
  }

  lemma SecondBmm(c: Case, base: Value)
    requires Fair(c) && c.m.pv < |c.g.ops| && c.base == base
    requires var pv := c.g.ops[c.m.pv];
      && IsPlainBmm(pv) && FirstAlone(pv) && |pv.inputs| >= 2
      && Number(pv, "batch") == c.m.d.batch && Number(pv, "M") == c.m.d.m && Number(pv, "K") == c.m.d.n && Number(pv, "N") == c.m.dv
      && Read(c.e, pv.inputs[0]) == Expected(c.soft, c.m.d, base, c.m.scale, c.m.causal, Some(c.m.act))
    ensures var pv := c.g.ops[c.m.pv];
      Read(c.e, pv.outputs[0]) ==
        Bmm(c.m.d.batch, c.m.d.m, c.m.d.n, Size(c.m.dv), ActRows(c.soft, c.m.act, c.m.d.n, Scores(c.m.d, c.m.scale, c.m.causal, base)), Read(c.e, pv.inputs[1]))
  {
    var pv := c.g.ops[c.m.pv];
    assert pv in c.g.ops && Holds(c.k, pv, c.e);
    var vs := ReadAll(c.e, pv.inputs);
    assert Meant(c.soft, pv, vs) == Some(BmmOf(pv, vs[0], vs[1]));
    StageMakes(c.k, c.soft, pv, c.e);
  }
}
