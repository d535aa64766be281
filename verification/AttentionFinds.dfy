/** The match finds every attention chain (pipeline/attention_fuse.py): a score bmm, positive factors and at
    most one causal mask, one softmax or relu, views anywhere between, and a plain bmm, each result going
    to the next op only. */
module AttentionFinds {
  import opened Ir
  import opened Attention
  import opened AttentionKernels
  import opened AttentionFuse
  import opened AttentionMeaning
  import opened AttentionPaths

  // ---------------------------------------------------------------- stages of a chain

  /** Multiplies the scores by a positive constant. */
  ghost predicate Multiplies(st: Op) {
    && (|| (st.body.kind == "mul_scalar_f16" && "scalar" in st.body.quant)
        || (st.body.kind == "ewise_scalar_f16" && "c" in st.body.quant &&
            (Number(st, "opc") == 3 || (Number(st, "opc") == 4 && st.body.quant["c"] != 0.0))))
    && Factor(st) > 0.0
  }

  /** Fills minus infinity where a known constant is set, which is for later keys exactly. */
  ghost predicate Masks(g: Net, p: Problem, st: Op) {
    && st.body.kind == "ewise2_f16" && Applies(st, "masked_fill", 7) && Text_(st, "alpha") == "-inf" && p.d.m == p.d.n
    && |st.inputs| >= 2 && IsConst(g.tensors, st.inputs[1])
    && HidesLater(p, st, g.tensors[st.inputs[1]].const_)
  }

  ghost predicate HidesLater(p: Problem, st: Op, key: string) {
    match p.lookup(key)
    case None => false
    case Some(Text(text)) => text == "verified:triu1"
    case Some(Values(values)) =>
      && Product(st, 6) == p.d.batch * p.d.m * p.d.n
      && forall b: nat, m: nat, n: nat :: b < p.d.batch && m < p.d.m && n < p.d.n ==> MaskedAt(values, st, p.d, b, m, n) == (m < n)
  }

  ghost predicate ActsAs(p: Problem, st: Op, act: Act) {
    match act
    case Softmax =>
      || (st.body.kind == "softmax_f16" && Number(st, "K") == p.d.n)
      || (st.body.kind == "softmax_dim_f16" && NumberOr(st, "inner", 1) == 1 && Number(st, "R") == p.d.n && Text_(st, "log_out") == "")
    case Relu => st.body.kind == "relu_f16" || (st.body.kind == "ewise1_f16" && Applies(st, "relu", 8))
  }

  ghost predicate Quiet(g: Net, p: Problem, st: Op) { Multiplies(st) || Masks(g, p, st) }

  ghost function MaskCount(g: Net, p: Problem, stages: seq<Op>): nat {
    if stages == [] then 0 else MaskCount(g, p, stages[..|stages| - 1]) + if Masks(g, p, stages[|stages| - 1]) then 1 else 0
  }

  lemma KindsDiffer()
    ensures "mul_scalar_f16" != "ewise2_f16" && "ewise_scalar_f16" != "ewise2_f16" && "softmax_f16" != "ewise2_f16"
    ensures "softmax_dim_f16" != "ewise2_f16" && "relu_f16" != "ewise2_f16" && "ewise1_f16" != "ewise2_f16"
    ensures "softmax_f16" != "mul_scalar_f16" && "softmax_dim_f16" != "mul_scalar_f16" && "relu_f16" != "mul_scalar_f16" && "ewise1_f16" != "mul_scalar_f16"
    ensures "softmax_f16" != "ewise_scalar_f16" && "softmax_dim_f16" != "ewise_scalar_f16" && "relu_f16" != "ewise_scalar_f16" && "ewise1_f16" != "ewise_scalar_f16"
    ensures "softmax_f16" != "relu_f16" && "softmax_f16" != "ewise1_f16" && "softmax_dim_f16" != "relu_f16" && "softmax_dim_f16" != "ewise1_f16"
    ensures "softmax_f16" != "softmax_dim_f16" && "mul_scalar_f16" != "ewise_scalar_f16"
  {
    assert |"mul_scalar_f16"| == 14 && |"ewise2_f16"| == 10 && |"ewise_scalar_f16"| == 16 && |"softmax_f16"| == 11
        && |"softmax_dim_f16"| == 15 && |"relu_f16"| == 8 && |"ewise1_f16"| == 10;
    assert "ewise2_f16"[5] == '2' && "ewise1_f16"[5] == '1';
  }

  lemma ScaleIsFactor(st: Op)
    requires Multiplies(st)
    ensures ScaleOf(st) == Some(Factor(st)) && Factor(st) > 0.0
  {
    KindsDiffer();
  }

  lemma MaskIsCausal(g: Net, p: Problem, st: Op)
    requires Masks(g, p, st)
    ensures st.body.kind == "ewise2_f16" && ScaleOf(st).None? && IsCausalMask(g.tensors, st, p.d, p.lookup)
  {
    KindsDiffer();
    hide MaskedAt, Product;
  }

  lemma ActStage(p: Problem, st: Op, act: Act)
    requires ActsAs(p, st, act)
    ensures ScaleOf(st).None? && st.body.kind != "ewise2_f16"
    ensures act.Softmax? ==> IsSoftmax(st) && !IsRelu(st)
    ensures act.Relu? ==> IsRelu(st) && !IsSoftmax(st)
  {
    KindsDiffer();
  }

  // ---------------------------------------------------------------- taking stages

  /** The walk after a stage that multiplies. */
  predicate Scaled(w: Walk, c: real, v: Walk)
    requires w.pending != []
  {
    && v.pending == w.pending[1..] && v.scale == w.scale * c
    && v.at == w.at && v.absorbed == w.absorbed && v.causal == w.causal && v.masks == w.masks && v.act == w.act
  }

  lemma TakesScale(g: Net, p: Problem, w: Walk)
    requires w.pending != [] && w.act.None? && ScaleOf(w.pending[0]).Some? && ScaleOf(w.pending[0]).value > 0.0
    ensures TakeStage(g, p, w).Some? && Scaled(w, ScaleOf(w.pending[0]).value, TakeStage(g, p, w).value)
  {
    hide IsCausalMask, ScaleOf, IsSoftmax, IsRelu;
  }

  lemma TakesFactor(g: Net, p: Problem, w: Walk)
    requires w.pending != [] && w.act.None? && Multiplies(w.pending[0])
    ensures TakeStage(g, p, w).Some? && Scaled(w, Factor(w.pending[0]), TakeStage(g, p, w).value)
  {
    ScaleIsFactor(w.pending[0]);
    hide *;
    TakesScale(g, p, w);
  }

  lemma TakesMask(g: Net, p: Problem, w: Walk)
    requires w.pending != [] && w.act.None? && !w.causal && Masks(g, p, w.pending[0])
    ensures Factor(w.pending[0]) == 1.0
    ensures TakeStage(g, p, w) == Some(w.(pending := w.pending[1..], causal := true, masks := w.masks + [MaskKey(g.tensors, w.pending[0])]))
  {
    MaskIsCausal(g, p, w.pending[0]);
    KindsDiffer();
    hide ScaleOf, IsCausalMask, HidesLater;
  }

  lemma TakesAct(g: Net, p: Problem, w: Walk, act: Act)
    requires w.pending != [] && w.act.None? && ActsAs(p, w.pending[0], act)
    ensures TakeStage(g, p, w) == Some(w.(pending := w.pending[1..], act := Some(act)))
  {
    ActStage(p, w.pending[0], act);
    KindsDiffer();
    hide ScaleOf, IsCausalMask;
  }

  lemma WalkOn(g: Net, p: Problem, w: Walk)
    requires Listed(g.ops) && w.at < |g.ops| && w.pending != [] && TakeStage(g, p, w).Some?
    ensures TakeStage(g, p, w).value.at == w.at && WalkFrom(g, p, w) == WalkFrom(g, p, TakeStage(g, p, w).value)
  {
    TakenKind(g, p, w);
    hide Follow, TakeStage;
  }

  lemma {:induction false} CountsJoin(g: Net, p: Problem, a: seq<Op>, b: seq<Op>)
    ensures MaskCount(g, p, a + b) == MaskCount(g, p, a) + MaskCount(g, p, b)
    decreases |b|
  {
    if b == [] {
      assert a + b == a;
    } else {
      assert (a + b)[..|a + b| - 1] == a + b[..|b| - 1];
      CountsJoin(g, p, a, b[..|b| - 1]);
    }
  }

  lemma {:induction false} FactorsJoin(a: seq<Op>, b: seq<Op>)
    ensures Factors(a + b) == Factors(a) * Factors(b)
    decreases |b|
  {
    hide *;
    if b == [] {
      assert a + b == a;
      NoFactors();
    } else {
      var init, st := b[..|b| - 1], b[|b| - 1];
      assert (a + b)[..|a + b| - 1] == a + init && (a + b)[|a + b| - 1] == st;
      FactorsLast(b);
      FactorsLast(a + b);
      FactorsJoin(a, init);
      ProductsJoin(Factors(a), Factors(init), Factor(st));
    }
  }

  lemma NoFactors()
    ensures Factors([]) == 1.0
  {
  }

  lemma FactorsLast(stages: seq<Op>)
    requires stages != []
    ensures Factors(stages) == Factors(stages[..|stages| - 1]) * Factor(stages[|stages| - 1])
  {
    hide Factor;
  }

  /** The first stage of many. */
  lemma TotalsOn(g: Net, p: Problem, st: Op, rest: seq<Op>)
    ensures MaskCount(g, p, [st] + rest) == (if Masks(g, p, st) then 1 else 0) + MaskCount(g, p, rest)
    ensures Factors([st] + rest) == Factor(st) * Factors(rest)
  {
    OneTotal(g, p, st);
    hide *;
    CountsJoin(g, p, [st], rest);
    FactorsJoin([st], rest);
  }

  lemma OneTotal(g: Net, p: Problem, st: Op)
    ensures MaskCount(g, p, [st]) == (if Masks(g, p, st) then 1 else 0) && Factors([st]) == Factor(st)
  {
    hide Masks, Factor;
    assert [st][..0] == [];
    assert Factors([]) == 1.0;
    FactorsLast([st]);
  }

  lemma NoTotal(g: Net, p: Problem)
    ensures MaskCount(g, p, []) == 0 && Factors([]) == 1.0
  {
  }

  /** What the walk has become after quiet stages. */
  ghost predicate Quieted(g: Net, p: Problem, w: Walk, n: nat, v: Walk)
    requires n <= |w.pending|
  {
    && v.at == w.at && v.absorbed == w.absorbed && v.act.None? && v.pending == w.pending[n..]
    && v.scale == w.scale * Factors(w.pending[..n]) && v.causal == (w.causal || MaskCount(g, p, w.pending[..n]) > 0)
  }

  lemma {:induction false} TakesQuiet(g: Net, p: Problem, w: Walk, n: nat) returns (v: Walk)
    requires Listed(g.ops) && w.at < |g.ops| && w.act.None? && n <= |w.pending|
    requires forall k :: 0 <= k < n ==> Quiet(g, p, w.pending[k])
    requires MaskCount(g, p, w.pending[..n]) + (if w.causal then 1 else 0) <= 1
    ensures Quieted(g, p, w, n, v) && SameWalk(g, p, w, v)
    decreases n
  {
    hide *;
    if n == 0 {
      v := w;
      assert w.pending[..0] == [] && w.pending[0..] == w.pending;
      NoTotal(g, p);
      IsQuieted(g, p, w, 0, v);
      IsSameWalk(g, p, w, v);
    } else {
      var st, tail := w.pending[0], w.pending[1..];
      assert w.pending[..n] == [st] + tail[..n - 1] && tail[n - 1..] == w.pending[n..];
      TotalsOn(g, p, st, tail[..n - 1]);
      assert Quiet(g, p, st);
      var u := TakesOne(g, p, w);
      v := TakesQuiet(g, p, u, n - 1);
      QuietedIs(g, p, u, n - 1, v);
      ProductsJoin(w.scale, Factor(st), Factors(tail[..n - 1]));
      IsQuieted(g, p, w, n, v);
      WalksJoin(g, p, w, u, v);
    }
  }

  /** One quiet stage. */
  lemma TakesOne(g: Net, p: Problem, w: Walk) returns (u: Walk)
    requires Listed(g.ops) && w.at < |g.ops| && w.act.None? && w.pending != [] && Quiet(g, p, w.pending[0])
    requires w.causal ==> !Masks(g, p, w.pending[0])
    ensures u.at == w.at && u.absorbed == w.absorbed && u.act.None? && u.pending == w.pending[1..]
    ensures u.scale == w.scale * Factor(w.pending[0]) && u.causal == (w.causal || Masks(g, p, w.pending[0]))
    ensures SameWalk(g, p, w, u)
  {
    var st := w.pending[0];
    assert Masks(g, p, st) || Multiplies(st);
    hide *;
    if Masks(g, p, st) {
      TakesMask(g, p, w);
    } else {
      TakesFactor(g, p, w);
      ScaledIs(w, Factor(st), TakeStage(g, p, w).value);
    }
    u := TakeStage(g, p, w).value;
    WalkOn(g, p, w);
    IsSameWalk(g, p, w, u);
  }

  lemma ScaledIs(w: Walk, c: real, v: Walk)
    requires w.pending != [] && Scaled(w, c, v)
    ensures v.pending == w.pending[1..] && v.scale == w.scale * c
    ensures v.at == w.at && v.absorbed == w.absorbed && v.causal == w.causal && v.act == w.act
  {
  }

  ghost predicate SameWalk(g: Net, p: Problem, w: Walk, x: Walk) {
    Listed(g.ops) && w.at < |g.ops| && x.at < |g.ops| && WalkFrom(g, p, w) == WalkFrom(g, p, x)
  }

  lemma IsSameWalk(g: Net, p: Problem, w: Walk, x: Walk)
    requires Listed(g.ops) && w.at < |g.ops| && x.at < |g.ops| && WalkFrom(g, p, w) == WalkFrom(g, p, x)
    ensures SameWalk(g, p, w, x)
  {
    hide WalkFrom, Listed;
  }

  lemma SameWalkIs(g: Net, p: Problem, w: Walk, x: Walk)
    requires SameWalk(g, p, w, x)
    ensures Listed(g.ops) && w.at < |g.ops| && x.at < |g.ops| && WalkFrom(g, p, w) == WalkFrom(g, p, x)
  {
    hide WalkFrom, Listed;
  }

  lemma WalksJoin(g: Net, p: Problem, w: Walk, u: Walk, v: Walk)
    requires SameWalk(g, p, w, u) && SameWalk(g, p, u, v)
    ensures SameWalk(g, p, w, v)
  {
    hide WalkFrom, Listed;
  }

  lemma IsQuieted(g: Net, p: Problem, w: Walk, n: nat, v: Walk)
    requires n <= |w.pending| && v.at == w.at && v.absorbed == w.absorbed && v.act.None? && v.pending == w.pending[n..]
    requires v.scale == w.scale * Factors(w.pending[..n]) && v.causal == (w.causal || MaskCount(g, p, w.pending[..n]) > 0)
    ensures Quieted(g, p, w, n, v)
  {
    hide Factors, MaskCount;
  }

  // ---------------------------------------------------------------- following

  /** `at` hands on through the views to `op`. */
  ghost predicate Reads(g: Net, at: nat, views: seq<nat>, op: nat) {
    && Passes(g, [at] + views, op) && op < |g.ops| && !IsView(g.ops[op])
    && forall v :: v in views ==> v < |g.ops| && IsView(g.ops[v])
  }

  lemma {:induction false} FollowsThrough(g: Net, at: nat, views: seq<nat>, op: nat)
    requires Listed(g.ops) && at < |g.ops| && Reads(g, at, views, op)
    ensures Follow(g, at).Some? && Follow(g, at).value.op == op && Follow(g, at).value.views == views
    decreases |views|
  {
    hide Readers, IsView, Listed;
    var chain := [at] + views;
    HandsOnAt(g, chain, op, 0);
    if views != [] {
      var r, rest := views[0], views[1..];
      assert views == [r] + rest && chain[1] == r;
      forall k: nat | k < |[r] + rest|
        ensures HandsOn(g, [r] + rest, op, k)
      {
        HandsOnAt(g, chain, op, k + 1);
        assert ([r] + rest)[k] == chain[k + 1] && (k + 1 < |[r] + rest| ==> ([r] + rest)[k + 1] == chain[k + 2]);
      }
      assert r in views && forall v :: v in rest ==> v in views;
      assert Reads(g, r, rest, op);
      FollowsThrough(g, r, rest, op);
      FollowsOne(g, at, r);
    } else {
      FollowsOne(g, at, op);
    }
  }

  lemma FollowsOne(g: Net, at: nat, r: nat)
    requires Listed(g.ops) && OnlyTo(g, at, r)
    ensures IsView(g.ops[r]) ==> Follow(g, at) == Behind([r], Follow(g, r))
    ensures !IsView(g.ops[r]) ==> Follow(g, at) == Some(Followed(r, Out(g, at), []))
  {
    hide Readers, IsView;
  }

  // ---------------------------------------------------------------- the chain

  /** Views, and the op behind them. */
  datatype Seg = Seg(views: seq<nat>, op: nat)

  /** The op's stages are plain, and it is no second bmm. */
  ghost predicate Between(g: Net, op: nat) {
    op < |g.ops| && !IsPlainBmm(g.ops[op]) && forall st :: st in StagesOf(g.ops[op]) ==> st.subOps == []
  }

  /** From `at`, with the given stages of it still to pass: quiet stages and ops, one activation as the last
      stage of the last op, and then the second bmm. */
  ghost predicate ChainFrom(g: Net, p: Problem, at: nat, stages: seq<Op>, segs: seq<Seg>, lastViews: seq<nat>, pv: nat, act: Act)
    decreases |segs|
  {
    if segs == [] then
      && stages != [] && ActsAs(p, stages[|stages| - 1], act) && (forall k :: 0 <= k < |stages| - 1 ==> Quiet(g, p, stages[k]))
      && Reads(g, at, lastViews, pv) && IsPlainBmm(g.ops[pv])
    else
      && (forall k :: 0 <= k < |stages| ==> Quiet(g, p, stages[k]))
      && Reads(g, at, segs[0].views, segs[0].op) && Between(g, segs[0].op)
      && ChainFrom(g, p, segs[0].op, StagesOf(g.ops[segs[0].op]), segs[1..], lastViews, pv, act)
  }

  /** All stages of a chain. */
  ghost function ChainStages(g: Net, stages: seq<Op>, segs: seq<Seg>): seq<Op>
    decreases |segs|
  {
    if segs == [] || segs[0].op >= |g.ops| then stages else stages + ChainStages(g, StagesOf(g.ops[segs[0].op]), segs[1..])
  }

  ghost function Absorbs(segs: seq<Seg>): seq<nat> {
    if segs == [] then [] else segs[0].views + [segs[0].op] + Absorbs(segs[1..])
  }

  /** Where the walk ends. */
  ghost predicate EndsAs(w: Walk, absorbed: seq<nat>, factor: real, masked: bool, act: Act, v: Walk) {
    v.absorbed == w.absorbed + absorbed && v.scale == w.scale * factor && v.causal == (w.causal || masked) && v.act == Some(act)
  }

  lemma ActIsLast(g: Net, p: Problem, at: nat, stages: seq<Op>, lastViews: seq<nat>, pv: nat, act: Act)
    requires ChainFrom(g, p, at, stages, [], lastViews, pv, act)
    ensures stages != [] && Reads(g, at, lastViews, pv) && IsPlainBmm(g.ops[pv]) && ActsAs(p, stages[|stages| - 1], act)
    ensures forall k :: 0 <= k < |stages| - 1 ==> Quiet(g, p, stages[k])
    ensures MaskCount(g, p, stages) == MaskCount(g, p, stages[..|stages| - 1]) && Factors(stages) == Factors(stages[..|stages| - 1])
  {
    ActIsQuiet(g, p, stages[|stages| - 1], act);
    hide Quiet, ActsAs, Reads, Factor;
  }

  lemma ActEnds(g: Net, p: Problem, w: Walk, lastViews: seq<nat>, pv: nat, act: Act) returns (v: Walk)
    requires Listed(g.ops) && w.at < |g.ops| && w.act.None? && ChainFrom(g, p, w.at, w.pending, [], lastViews, pv, act)
    requires MaskCount(g, p, w.pending) + (if w.causal then 1 else 0) <= 1
    ensures WalkFrom(g, p, w) == Some((v, pv)) && EndsAs(w, lastViews, Factors(w.pending), MaskCount(g, p, w.pending) > 0, act, v)
  {
    ActIsLast(g, p, w.at, w.pending, lastViews, pv, act);
    var n := |w.pending| - 1;
    assert MaskCount(g, p, w.pending[..n]) + (if w.causal then 1 else 0) <= 1;
    hide *;
    var u := TakesQuiet(g, p, w, n);
    SameWalkIs(g, p, w, u);
    QuietedIs(g, p, w, n, u);
    assert u.pending[0] == w.pending[n] && |u.pending| == 1;
    TakesAct(g, p, u, act);
    WalkOn(g, p, u);
    var x := u.(pending := u.pending[1..], act := Some(act));
    assert x.pending == [];
    v := ViewsEnd(g, p, x, lastViews, pv);
    EndsSo(w, v, lastViews, Factors(w.pending), MaskCount(g, p, w.pending) > 0, act);
  }

  lemma QuietedIs(g: Net, p: Problem, w: Walk, n: nat, v: Walk)
    requires n <= |w.pending| && Quieted(g, p, w, n, v)
    ensures v.at == w.at && v.absorbed == w.absorbed && v.act.None? && v.pending == w.pending[n..]
    ensures v.scale == w.scale * Factors(w.pending[..n]) && v.causal == (w.causal || MaskCount(g, p, w.pending[..n]) > 0)
  {
    hide Factors, MaskCount;
  }

  lemma EndsSo(w: Walk, v: Walk, absorbed: seq<nat>, factor: real, masked: bool, act: Act)
    requires v.absorbed == w.absorbed + absorbed && v.scale == w.scale * factor && v.causal == (w.causal || masked) && v.act == Some(act)
    ensures EndsAs(w, absorbed, factor, masked, act, v)
  {
  }

  lemma ViewsEnd(g: Net, p: Problem, x: Walk, lastViews: seq<nat>, pv: nat) returns (v: Walk)
    requires Listed(g.ops) && x.at < |g.ops| && x.pending == [] && Reads(g, x.at, lastViews, pv) && IsPlainBmm(g.ops[pv])
    ensures WalkFrom(g, p, x) == Some((v, pv)) && v == x.(absorbed := x.absorbed + lastViews)
  {
    assert pv < |g.ops| by { hide Passes, IsView; }
    hide *;
    FollowsThrough(g, x.at, lastViews, pv);
    WalkReaches(g, p, x, lastViews, pv);
    v := x.(absorbed := x.absorbed + lastViews);
  }

  lemma ActIsQuiet(g: Net, p: Problem, st: Op, act: Act)
    requires ActsAs(p, st, act)
    ensures Factor(st) == 1.0 && !Masks(g, p, st)
  {
    KindsDiffer();
  }

  lemma WalkReaches(g: Net, p: Problem, w: Walk, views: seq<nat>, pv: nat)
    requires Listed(g.ops) && w.at < |g.ops| && w.pending == [] && pv < |g.ops| && IsPlainBmm(g.ops[pv])
    requires Follow(g, w.at).Some? && Follow(g, w.at).value.op == pv && Follow(g, w.at).value.views == views
    ensures WalkFrom(g, p, w) == Some((w.(absorbed := w.absorbed + views), pv))
  {
    hide Follow, TakeStage;
  }

  lemma WalkMoves(g: Net, p: Problem, w: Walk, views: seq<nat>, op: nat)
    requires Listed(g.ops) && w.at < |g.ops| && w.pending == [] && w.act.None? && Between(g, op)
    requires Follow(g, w.at).Some? && Follow(g, w.at).value.op == op && Follow(g, w.at).value.views == views
    ensures WalkFrom(g, p, w) == WalkFrom(g, p, w.(absorbed := w.absorbed + views + [op], pending := StagesOf(g.ops[op]), at := op))
  {
    hide Follow, TakeStage;
  }

  /** The walk from the stages of one op to the stages of the next. */
  ghost predicate Moved(g: Net, w: Walk, s: Seg, factor: real, masked: bool, x: Walk) {
    && s.op < |g.ops| && x.at == s.op && x.act.None? && x.pending == StagesOf(g.ops[s.op]) && x.absorbed == w.absorbed + s.views + [s.op]
    && x.scale == w.scale * factor && x.causal == (w.causal || masked)
  }

  lemma SegmentPassed(g: Net, p: Problem, w: Walk, s: Seg) returns (x: Walk)
    requires Listed(g.ops) && w.at < |g.ops| && w.act.None? && Reads(g, w.at, s.views, s.op) && Between(g, s.op)
    requires forall k :: 0 <= k < |w.pending| ==> Quiet(g, p, w.pending[k])
    requires MaskCount(g, p, w.pending) + (if w.causal then 1 else 0) <= 1
    ensures SameWalk(g, p, w, x) && Moved(g, w, s, Factors(w.pending), MaskCount(g, p, w.pending) > 0, x)
  {
    assert s.op < |g.ops| by { hide *; BetweenIn(g, s.op); }
    hide *;
    assert w.pending[..|w.pending|] == w.pending && w.pending[|w.pending|..] == [];
    var u := TakesQuiet(g, p, w, |w.pending|);
    QuietedIs(g, p, w, |w.pending|, u);
    FollowsThrough(g, w.at, s.views, s.op);
    WalkMoves(g, p, u, s.views, s.op);
    SameWalkIs(g, p, w, u);
    x := u.(absorbed := u.absorbed + s.views + [s.op], pending := StagesOf(g.ops[s.op]), at := s.op);
    IsMoved(g, p, w, s, Factors(w.pending), MaskCount(g, p, w.pending) > 0, x);
  }

  lemma BetweenIn(g: Net, op: nat)
    requires Between(g, op)
    ensures op < |g.ops|
  {
  }

  lemma IsMoved(g: Net, p: Problem, w: Walk, s: Seg, factor: real, masked: bool, x: Walk)
    requires Listed(g.ops) && w.at < |g.ops| && s.op < |g.ops| && x.at == s.op && WalkFrom(g, p, w) == WalkFrom(g, p, x)
    requires x.act.None? && x.pending == StagesOf(g.ops[s.op]) && x.absorbed == w.absorbed + s.views + [s.op]
    requires x.scale == w.scale * factor && x.causal == (w.causal || masked)
    ensures SameWalk(g, p, w, x) && Moved(g, w, s, factor, masked, x)
  {
  }

  lemma SegmentParts(g: Net, p: Problem, at: nat, stages: seq<Op>, segs: seq<Seg>, lastViews: seq<nat>, pv: nat, act: Act)
    requires segs != [] && ChainFrom(g, p, at, stages, segs, lastViews, pv, act)
    ensures (forall k :: 0 <= k < |stages| ==> Quiet(g, p, stages[k])) && segs[0].op < |g.ops|
    ensures Reads(g, at, segs[0].views, segs[0].op) && Between(g, segs[0].op)
    ensures ChainFrom(g, p, segs[0].op, StagesOf(g.ops[segs[0].op]), segs[1..], lastViews, pv, act)
  {
    hide Quiet, Reads, IsPlainBmm;
  }

  lemma SegmentTotals(g: Net, p: Problem, stages: seq<Op>, segs: seq<Seg>) returns (next: seq<Op>)
    requires segs != [] && segs[0].op < |g.ops|
    ensures next == ChainStages(g, StagesOf(g.ops[segs[0].op]), segs[1..])
    ensures MaskCount(g, p, ChainStages(g, stages, segs)) == MaskCount(g, p, stages) + MaskCount(g, p, next)
    ensures Factors(ChainStages(g, stages, segs)) == Factors(stages) * Factors(next)
  {
    next := ChainStages(g, StagesOf(g.ops[segs[0].op]), segs[1..]);
    assert ChainStages(g, stages, segs) == stages + next;
    hide *;
    CountsJoin(g, p, stages, next);
    FactorsJoin(stages, next);
  }

  /** The walk ends before the second bmm with everything the chain asks for. */
  ghost predicate Found(g: Net, p: Problem, w: Walk, segs: seq<Seg>, lastViews: seq<nat>, pv: nat, act: Act, v: Walk) {
    && Listed(g.ops) && w.at < |g.ops| && WalkFrom(g, p, w) == Some((v, pv))
    && EndsAs(w, Absorbs(segs) + lastViews, Factors(ChainStages(g, w.pending, segs)), MaskCount(g, p, ChainStages(g, w.pending, segs)) > 0, act, v)
  }

  lemma {:induction false} WalkFinds(g: Net, p: Problem, w: Walk, segs: seq<Seg>, lastViews: seq<nat>, pv: nat, act: Act) returns (v: Walk)
    requires Listed(g.ops) && w.at < |g.ops| && w.act.None? && ChainFrom(g, p, w.at, w.pending, segs, lastViews, pv, act)
    requires MaskCount(g, p, ChainStages(g, w.pending, segs)) + (if w.causal then 1 else 0) <= 1
    ensures Found(g, p, w, segs, lastViews, pv, act, v)
    decreases |segs|
  {
    hide *;
    if segs == [] {
      NoSegments(g, w.pending);
      v := ActEnds(g, p, w, lastViews, pv, act);
      assert [] + lastViews == lastViews;
      IsFound(g, p, w, [], lastViews, pv, act, v);
    } else {
      var s, rest := segs[0], segs[1..];
      SegmentParts(g, p, w.at, w.pending, segs, lastViews, pv, act);
      var next := SegmentTotals(g, p, w.pending, segs);
      var x := SegmentPassed(g, p, w, s);
      MovedIs(g, p, w, s, Factors(w.pending), MaskCount(g, p, w.pending) > 0, x);
      v := WalkFinds(g, p, x, rest, lastViews, pv, act);
      FoundAt(g, p, x, rest, lastViews, pv, act, v);
      FoundIs(g, p, x, rest, lastViews, pv, act, v);
      AbsorbsOn(segs);
      assert w.absorbed + s.views + [s.op] + (Absorbs(rest) + lastViews) == w.absorbed + (s.views + [s.op] + Absorbs(rest) + lastViews);
      ProductsJoin(w.scale, Factors(w.pending), Factors(next));
      var all := ChainStages(g, w.pending, segs);
      EndsSo(w, v, Absorbs(segs) + lastViews, Factors(all), MaskCount(g, p, all) > 0, act);
      IsFound(g, p, w, segs, lastViews, pv, act, v);
    }
  }

  lemma NoSegments(g: Net, stages: seq<Op>)
    ensures ChainStages(g, stages, []) == stages && Absorbs([]) == []
  {
  }

  lemma AbsorbsOn(segs: seq<Seg>)
    requires segs != []
    ensures Absorbs(segs) == segs[0].views + [segs[0].op] + Absorbs(segs[1..])
  {
  }

  lemma MovedIs(g: Net, p: Problem, w: Walk, s: Seg, factor: real, masked: bool, x: Walk)
    requires SameWalk(g, p, w, x) && Moved(g, w, s, factor, masked, x)
    ensures Listed(g.ops) && w.at < |g.ops| && s.op < |g.ops| && x.at == s.op && WalkFrom(g, p, w) == WalkFrom(g, p, x)
    ensures x.act.None? && x.pending == StagesOf(g.ops[s.op]) && x.absorbed == w.absorbed + s.views + [s.op]
    ensures x.scale == w.scale * factor && x.causal == (w.causal || masked)
  {
  }

  lemma IsFound(g: Net, p: Problem, w: Walk, segs: seq<Seg>, lastViews: seq<nat>, pv: nat, act: Act, v: Walk)
    requires Listed(g.ops) && w.at < |g.ops| && WalkFrom(g, p, w) == Some((v, pv))
    requires var all := ChainStages(g, w.pending, segs); EndsAs(w, Absorbs(segs) + lastViews, Factors(all), MaskCount(g, p, all) > 0, act, v)
    ensures Found(g, p, w, segs, lastViews, pv, act, v)
  {
  }

  lemma FoundAt(g: Net, p: Problem, w: Walk, segs: seq<Seg>, lastViews: seq<nat>, pv: nat, act: Act, v: Walk)
    requires Found(g, p, w, segs, lastViews, pv, act, v)
    ensures Listed(g.ops) && w.at < |g.ops| && WalkFrom(g, p, w) == Some((v, pv))
  {
    hide EndsAs;
  }

  lemma FoundIs(g: Net, p: Problem, w: Walk, segs: seq<Seg>, lastViews: seq<nat>, pv: nat, act: Act, v: Walk)
    requires Found(g, p, w, segs, lastViews, pv, act, v)
    ensures v.absorbed == w.absorbed + (Absorbs(segs) + lastViews) && v.act == Some(act)
    ensures var all := ChainStages(g, w.pending, segs);
      v.scale == w.scale * Factors(all) && v.causal == (w.causal || MaskCount(g, p, all) > 0)
  {
  }

  lemma ProductsJoin(a: real, b: real, c: real)
    ensures a * b * c == a * (b * c)
  {
  }

  /** The sizes of two bmms fit, and are ones the kernel can take. */
  ghost predicate SizesFit(first: Op, second: Op, d: Dims) {
    && Number(first, "batch") == d.batch && Number(first, "M") == d.m && Number(first, "N") == d.n
    && Number(second, "batch") == d.batch && Number(second, "M") == d.m && Number(second, "K") == d.n
    && Number(first, "K") <= 256 && Number(second, "N") <= 256
  }

  /** The stages of the chain behind the score bmm at `head`. */
  ghost function StagesAfter(g: Net, head: nat, segs: seq<Seg>): seq<Op>
    requires head < |g.ops|
  {
    ChainStages(g, StagesOf(g.ops[head])[1..], segs)
  }

  /** The scores of the bmm at `head` go through positive factors, at most one causal mask and one
      activation to a plain bmm of fitting sizes. */
  ghost predicate Attends(g: Net, head: nat, p: Problem, segs: seq<Seg>, lastViews: seq<nat>, pv: nat, act: Act) {
    && head < |g.ops| && pv < |g.ops| && IsBmm(StagesOf(g.ops[head])[0]) && SizesFit(StagesOf(g.ops[head])[0], g.ops[pv], p.d)
    && ChainFrom(g, p, head, StagesOf(g.ops[head])[1..], segs, lastViews, pv, act)
    && MaskCount(g, p, StagesAfter(g, head, segs)) <= 1
  }

  /** The match names the chain and carries its factor, mask and activation. */
  ghost predicate NamesChain(g: Net, head: nat, p: Problem, segs: seq<Seg>, lastViews: seq<nat>, pv: nat, act: Act, m: Match) {
    && head < |g.ops| && pv < |g.ops|
    && m.head == head && m.pv == pv && m.absorbed == [head] + Absorbs(segs) + lastViews && m.d == p.d && m.act == act
    && m.scale == Factors(StagesAfter(g, head, segs)) && m.causal == (MaskCount(g, p, StagesAfter(g, head, segs)) > 0)
    && m.inner == Number(StagesOf(g.ops[head])[0], "K") && m.dv == Number(g.ops[pv], "N")
  }

  /** Every such chain is matched. */
  lemma MatchFinds(g: Net, head: nat, p: Problem, segs: seq<Seg>, lastViews: seq<nat>, pv: nat, act: Act)
    requires Listed(g.ops) && Attends(g, head, p, segs, lastViews, pv, act)
    ensures head < |g.ops| && MatchAt(g, head, p.lookup).Some?
    ensures NamesChain(g, head, p, segs, lastViews, pv, act, MatchAt(g, head, p.lookup).value)
  {
    AttendsParts(g, head, p, segs, lastViews, pv, act);
    hide *;
    var w := StartAt(g, head);
    Starts(g, head);
    var v := WalkFinds(g, p, w, segs, lastViews, pv, act);
    FoundAt(g, p, w, segs, lastViews, pv, act, v);
    FoundIs(g, p, w, segs, lastViews, pv, act, v);
    MatchIs(g, head, p, v, pv, act);
    IsNamed(g, head, p, segs, lastViews, pv, act, v);
  }

  lemma AttendsParts(g: Net, head: nat, p: Problem, segs: seq<Seg>, lastViews: seq<nat>, pv: nat, act: Act)
    requires Attends(g, head, p, segs, lastViews, pv, act)
    ensures head < |g.ops| && pv < |g.ops| && IsBmm(StagesOf(g.ops[head])[0]) && SizesFit(StagesOf(g.ops[head])[0], g.ops[pv], p.d)
    ensures ChainFrom(g, p, head, StagesOf(g.ops[head])[1..], segs, lastViews, pv, act)
    ensures MaskCount(g, p, ChainStages(g, StagesOf(g.ops[head])[1..], segs)) <= 1
  {
    hide ChainFrom, ChainStages, MaskCount, SizesFit;
  }

  lemma Starts(g: Net, head: nat)
    requires head < |g.ops|
    ensures var w := StartAt(g, head);
      w.at == head && w.act.None? && !w.causal && w.scale == 1.0 && w.absorbed == [head] && w.pending == StagesOf(g.ops[head])[1..]
  {
  }

  lemma MatchIs(g: Net, head: nat, p: Problem, v: Walk, pv: nat, act: Act)
    requires Listed(g.ops) && head < |g.ops| && pv < |g.ops| && WalkFrom(g, p, StartAt(g, head)) == Some((v, pv)) && v.act == Some(act)
    requires IsBmm(StagesOf(g.ops[head])[0]) && SizesFit(StagesOf(g.ops[head])[0], g.ops[pv], p.d)
    ensures MatchAt(g, head, p.lookup) ==
      Some(Match(head, pv, v.absorbed, p.d, Number(StagesOf(g.ops[head])[0], "K"), Number(g.ops[pv], "N"), v.scale, v.causal, act, v.masks))
  {
    hide WalkFrom, StartAt;
    assert DimsOf(StagesOf(g.ops[head])[0]) == Some(p.d);
    assert p == Problem(p.d, p.lookup);
  }

  lemma IsNamed(g: Net, head: nat, p: Problem, segs: seq<Seg>, lastViews: seq<nat>, pv: nat, act: Act, v: Walk)
    requires Listed(g.ops) && head < |g.ops| && pv < |g.ops|
    requires MatchAt(g, head, p.lookup) ==
      Some(Match(head, pv, v.absorbed, p.d, Number(StagesOf(g.ops[head])[0], "K"), Number(g.ops[pv], "N"), v.scale, v.causal, act, v.masks))
    requires v.absorbed == [head] + (Absorbs(segs) + lastViews) && v.scale == 1.0 * Factors(ChainStages(g, StagesOf(g.ops[head])[1..], segs))
    requires v.causal == (MaskCount(g, p, ChainStages(g, StagesOf(g.ops[head])[1..], segs)) > 0)
    ensures NamesChain(g, head, p, segs, lastViews, pv, act, MatchAt(g, head, p.lookup).value)
  {
    hide MatchAt, Factors, MaskCount, ChainStages, Absorbs;
    assert [head] + (Absorbs(segs) + lastViews) == [head] + Absorbs(segs) + lastViews;
  }
}
