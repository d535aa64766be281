/** Which graphs attention fusion treats rightly, told from the graph alone (pipeline/attention_fuse.py).

    Whatever the match finds is a score path: a score bmm, ops that scale, mask or act on scores, and a
    second bmm, each reading the first output of the one before. If the score paths of a graph are
    clean, so is every match in it, and replacing one makes no new path. */
module AttentionPaths {
  import opened Ir
  import opened Attention
  import opened AttentionFuse
  import opened AttentionMeaning
  import opened AttentionRewriting

  // ---------------------------------------------------------------- score paths

  /** A stage the walk may pass. */
  predicate Takes(st: Op) {
    ScaleOf(st).Some? || st.body.kind == "ewise2_f16" || IsSoftmax(st) || IsRelu(st)
  }

  predicate Acts(st: Op) { IsSoftmax(st) || IsRelu(st) }

  /** An op the walk may pass; a head's first stage is the score bmm. */
  ghost predicate Carrier(o: Op, isHead: bool) {
    (IsView(o) && !isHead) || forall j :: 0 <= j < |StagesOf(o)| && !(isHead && j == 0) ==> Takes(StagesOf(o)[j])
  }

  ghost predicate HasAct(o: Op) { exists st :: st in StagesOf(o) && Acts(st) }

  /** The op at `k` hands its first output to the next one. */
  ghost predicate Feeds(path: seq<Op>, k: nat)
    requires k + 1 < |path|
  {
    path[k].outputs != [] && path[k].outputs[0] in path[k + 1].inputs
  }

  ghost predicate ScorePath(ops: seq<Op>, path: seq<Op>) {
    && |path| >= 2 && (forall k :: 0 <= k < |path| ==> path[k] in ops)
    && HeadsBmm(path[0]) && IsPlainBmm(path[|path| - 1])
    && (forall k: nat :: k + 1 < |path| ==> Carrier(path[k], k == 0) && Feeds(path, k))
    && exists k :: 0 <= k < |path| - 1 && HasAct(path[k])
  }

  // ---------------------------------------------------------------- clean paths

  ghost predicate CleanStep(path: seq<Op>, k: nat)
    requires k + 1 < |path|
  {
    && CleanOp(path[k]) && path[k].outputs != []
    && StagesOf(path[k + 1])[0].inputs != [] && StagesOf(path[k + 1])[0].inputs[0] == path[k].outputs[0]
  }

  /** Further outputs of the path's ops are no outputs of the graph, and only the path may read them. */
  ghost predicate KeepsToItself(g: Net, path: seq<Op>)
    requires path != []
  {
    forall o, t :: o in path && o.outputs != [] && t in o.outputs[1..] ==> UnusedOutside(g, path, t)
  }

  ghost predicate UnusedOutside(g: Net, path: seq<Op>, t: Name)
    requires path != []
  {
    t !in g.outs && t !in path[|path| - 1].inputs && forall p :: p in g.ops && p !in path ==> t !in p.inputs
  }

  ghost predicate HonestPath(g: Net, lookup: Lookup, e: Env, path: seq<Op>)
    requires path != []
  {
    forall o, st :: o in path && st in StagesOf(o) && DimsOf(StagesOf(path[0])[0]).Some? ==>
      HonestMask(g, DimsOf(StagesOf(path[0])[0]).value, lookup, e, st)
  }

  ghost predicate CleanPath(g: Net, lookup: Lookup, e: Env, path: seq<Op>) {
    && path != [] && (forall k: nat :: k + 1 < |path| ==> CleanStep(path, k))
    && FirstAlone(path[|path| - 1]) && KeepsToItself(g, path) && HonestPath(g, lookup, e, path)
  }

  /** Constants hold what the lookup says. */
  ghost predicate HonestValues(g: Net, lookup: Lookup, e: Env) {
    forall t, v :: IsConst(g.tensors, t) && lookup(g.tensors[t].const_) == Some(Values(v)) ==> Read(e, t) == v
  }

  ghost predicate CleanGraph(g: Net, lookup: Lookup, e: Env) {
    HonestValues(g, lookup, e) && forall path :: ScorePath(g.ops, path) ==> CleanPath(g, lookup, e, path)
  }

  /** Whatever layout is chosen, it splits the batch in two factors. */
  ghost predicate LayoutSplits(layout: Layout) {
    forall m :: layout(m).Some? ==> SplitsBatch(layout(m).value, m)
  }

  // ---------------------------------------------------------------- the walk follows a score path

  lemma {:induction false} FollowsViews(g: Net, at: nat)
    requires Listed(g.ops) && at < |g.ops| && Follow(g, at).Some?
    ensures forall v :: v in Follow(g, at).value.views ==> v < |g.ops| && IsView(g.ops[v])
    decreases |g.ops| - at
  {
    FollowStep(g, at);
    var f := Follow(g, at).value;
    if f.views != [] {
      FollowsViews(g, f.views[0]);
      assert f.views == [f.views[0]] + f.views[1..];
    }
  }

  ghost predicate CarrierAt(g: Net, absorbed: seq<nat>, k: nat)
    requires k < |absorbed|
  {
    absorbed[k] < |g.ops| && Carrier(g.ops[absorbed[k]], k == 0)
  }

  ghost predicate ActsAt(g: Net, absorbed: seq<nat>, k: nat)
    requires k < |absorbed|
  {
    absorbed[k] < |g.ops| && HasAct(g.ops[absorbed[k]])
  }

  ghost predicate SomeActs(g: Net, absorbed: seq<nat>) {
    exists k: nat :: k < |absorbed| && ActsAt(g, absorbed, k)
  }

  /** The ops behind the walk are carriers, and so is what it has passed of the op it stands on. */
  ghost predicate Sifted(g: Net, w: Walk) {
    && InOp(g, w) && AtLast(w)
    && (forall k: nat :: k < |w.absorbed| - 1 ==> CarrierAt(g, w.absorbed, k))
    && (forall j :: 0 <= j < |StagesOf(g.ops[w.at])| - |w.pending| && !(|w.absorbed| == 1 && j == 0) ==> Takes(StagesOf(g.ops[w.at])[j]))
    && (w.act.Some? ==> SomeActs(g, w.absorbed))
  }

  lemma TakenStage(g: Net, p: Problem, w: Walk)
    requires w.pending != [] && TakeStage(g, p, w).Some?
    ensures Takes(w.pending[0])
    ensures TakeStage(g, p, w).value.act.Some? ==> Acts(w.pending[0])
  {
    hide IsCausalMask, ScaleOf;
  }

  lemma TakingSifts(g: Net, p: Problem, w: Walk)
    requires Sifted(g, w) && w.pending != [] && TakeStage(g, p, w).Some?
    ensures Sifted(g, TakeStage(g, p, w).value)
  {
    var v, s := TakeStage(g, p, w).value, StagesOf(g.ops[w.at]);
    TakenKind(g, p, w);
    TakenStage(g, p, w);
    hide TakeStage, Takes, CarrierAt, Acts;
    var j := |s| - |w.pending|;
    assert s[j] == w.pending[0];
    if v.act.Some? {
      var k: nat := |w.absorbed| - 1;
      assert s[j] in s;
      assert ActsAt(g, v.absorbed, k);
    }
  }

  /** All stages passed: the op is a carrier. */
  lemma PassedIsCarrier(g: Net, w: Walk)
    requires Sifted(g, w) && w.pending == []
    ensures forall k: nat :: k < |w.absorbed| ==> CarrierAt(g, w.absorbed, k)
  {
    hide Takes, SomeActs;
  }

  lemma CarriersMore(g: Net, a: seq<nat>, b: seq<nat>)
    requires a != [] && (forall k: nat :: k < |a| ==> CarrierAt(g, a, k)) && forall v :: v in b ==> v < |g.ops| && IsView(g.ops[v])
    ensures forall k: nat :: k < |a + b| ==> CarrierAt(g, a + b, k)
    ensures SomeActs(g, a) ==> SomeActs(g, a + b)
  {
    hide Takes, HasAct;
    forall k: nat | k < |a + b|
      ensures CarrierAt(g, a + b, k)
    {
      if k < |a| {
        assert CarrierAt(g, a, k);
      } else {
        assert b[k - |a|] in b;
      }
    }
    if k: nat :| k < |a| && ActsAt(g, a, k) {
      assert ActsAt(g, a + b, k);
    }
  }

  lemma MovingSifts(g: Net, w: Walk)
    requires Listed(g.ops) && Sifted(g, w) && w.pending == [] && !NextOp(g, w).Stuck?
    ensures NextOp(g, w).On? ==> Sifted(g, NextOp(g, w).w)
    ensures var v := if NextOp(g, w).On? then w else NextOp(g, w).w;
      (forall k: nat :: k < |v.absorbed| ==> CarrierAt(g, v.absorbed, k)) && (v.act.Some? ==> SomeActs(g, v.absorbed))
  {
    var f, move := Follow(g, w.at).value, NextOp(g, w);
    FollowsViews(g, w.at);
    PassedIsCarrier(g, w);
    CarriersMore(g, w.absorbed, f.views);
    hide Follow, Takes, SomeActs, CarrierAt, Listed;
    if move.On? {
      var before, all := w.absorbed + f.views, move.w.absorbed;
      assert all == before + [f.op];
      forall k: nat | k < |all| - 1
        ensures CarrierAt(g, all, k)
      {
        assert CarrierAt(g, before, k);
        SameCarrier(g, before, all, k);
      }
    }
  }

  lemma SameCarrier(g: Net, a: seq<nat>, b: seq<nat>, k: nat)
    requires k < |a| && k < |b| && a[k] == b[k] && CarrierAt(g, a, k)
    ensures CarrierAt(g, b, k)
  {
  }

  lemma {:induction false} WalkSifts(g: Net, p: Problem, w: Walk)
    requires Listed(g.ops) && Sifted(g, w) && WalkFrom(g, p, w).Some?
    ensures var v := WalkFrom(g, p, w).value.0;
      (forall k: nat :: k < |v.absorbed| ==> CarrierAt(g, v.absorbed, k)) && (v.act.Some? ==> SomeActs(g, v.absorbed))
    decreases |g.ops| - w.at, |w.pending|
  {
    hide Follow, TakeStage, Listed, NextOp, Sifted, CarrierAt, SomeActs;
    SiftedIn(g, w);
    if w.pending == [] {
      MovingSifts(g, w);
      MovedKeeps(g, w);
      if NextOp(g, w).On? {
        WalkSifts(g, p, NextOp(g, w).w);
      }
    } else {
      TakingSifts(g, p, w);
      TakenKind(g, p, w);
      WalkSifts(g, p, TakeStage(g, p, w).value);
    }
  }

  lemma SiftedIn(g: Net, w: Walk)
    requires Sifted(g, w)
    ensures w.at < |g.ops|
  {
  }

  lemma StartSifted(g: Net, head: nat)
    requires head < |g.ops|
    ensures Sifted(g, StartAt(g, head))
  {
    var s := StagesOf(g.ops[head]);
    assert s[1..] == s[|s| - |s[1..]|..];
    hide Takes;
  }

  /** The ops of a match, in order. */
  ghost function PathOf(g: Net, m: Match): (path: seq<Op>)
    requires Inside(g, m)
    ensures |path| == |m.absorbed| + 1 && path[|m.absorbed|] == g.ops[m.pv]
    ensures forall k :: 0 <= k < |m.absorbed| ==> path[k] == g.ops[m.absorbed[k]]
  {
    seq(|m.absorbed|, k requires 0 <= k < |m.absorbed| => g.ops[m.absorbed[k]]) + [g.ops[m.pv]]
  }

  lemma HandsOver(g: Net, m: Match, k: nat)
    requires Inside(g, m) && Passes(g, m.absorbed, m.pv) && k < |m.absorbed|
    ensures k + 1 < |PathOf(g, m)| && Feeds(PathOf(g, m), k)
  {
    HandsOnAt(g, m.absorbed, m.pv, k);
    var r := if k + 1 < |m.absorbed| then m.absorbed[k + 1] else m.pv;
    assert Readers(g.ops, Out(g, m.absorbed[k]), |g.ops|)[0] == r;
    hide Readers, Passes;
  }

  lemma PathIsScorePath(g: Net, m: Match)
    requires Inside(g, m) && Passes(g, m.absorbed, m.pv) && m.absorbed[0] == m.head && HeadsBmm(g.ops[m.head]) && IsPlainBmm(g.ops[m.pv])
    requires (forall k: nat :: k < |m.absorbed| ==> CarrierAt(g, m.absorbed, k)) && SomeActs(g, m.absorbed)
    ensures ScorePath(g.ops, PathOf(g, m))
  {
    hide Passes, Carrier, HasAct, Feeds, HeadsBmm;
    var path := PathOf(g, m);
    forall k: nat | k + 1 < |path|
      ensures Carrier(path[k], k == 0) && Feeds(path, k)
    {
      assert CarrierAt(g, m.absorbed, k);
      HandsOver(g, m, k);
    }
    var k: nat :| k < |m.absorbed| && ActsAt(g, m.absorbed, k);
    assert HasAct(path[k]);
  }

  lemma MatchSifts(g: Net, head: nat, lookup: Lookup)
    requires Listed(g.ops) && head < |g.ops| && MatchAt(g, head, lookup).Some?
    ensures var m := MatchAt(g, head, lookup).value;
      (forall k: nat :: k < |m.absorbed| ==> CarrierAt(g, m.absorbed, k)) && SomeActs(g, m.absorbed)
  {
    var m := MatchAt(g, head, lookup).value;
    MatchParts(g, head, lookup);
    hide *;
    StartSifted(g, head);
    WalkSifts(g, Problem(m.d, lookup), StartAt(g, head));
  }

  /** A match is a score path. */
  lemma MatchIsPath(g: Net, head: nat, lookup: Lookup)
    requires Listed(g.ops) && head < |g.ops| && MatchAt(g, head, lookup).Some?
    ensures var m := MatchAt(g, head, lookup).value;
      Inside(g, m) && ScorePath(g.ops, PathOf(g, m)) && DimsOf(StagesOf(PathOf(g, m)[0])[0]) == Some(m.d)
  {
    var m := MatchAt(g, head, lookup).value;
    MatchIsPrivate(g, head, lookup);
    MatchParts(g, head, lookup);
    MatchSifts(g, head, lookup);
    hide MatchAt, WalkFrom, Passes, CarrierAt, SomeActs, ScorePath, Listed, DimsOf;
    PathIsScorePath(g, m);
  }

  // ---------------------------------------------------------------- the scale of a match

  /** What a stage multiplies scores with: a constant factor, or the reciprocal of a constant divisor. */
  function Factor(st: Op): real {
    match st.body.kind
    case "mul_scalar_f16" => if "scalar" in st.body.quant then st.body.quant["scalar"] else 1.0
    case "ewise_scalar_f16" =>
      if "c" !in st.body.quant then 1.0
      else if Number(st, "opc") == 3 then st.body.quant["c"]
      else if Number(st, "opc") == 4 && st.body.quant["c"] != 0.0 then 1.0 / st.body.quant["c"]
      else 1.0
    case _ => 1.0
  }

  function Factors(stages: seq<Op>): real {
    if stages == [] then 1.0 else Factors(stages[..|stages| - 1]) * Factor(stages[|stages| - 1])
  }

  /** The stages of the first `k` absorbed ops, views left out. */
  ghost function StagesBehind(g: Net, absorbed: seq<nat>, k: nat): seq<Op>
    requires k <= |absorbed| && forall j :: 0 <= j < |absorbed| ==> absorbed[j] < |g.ops|
  {
    if k == 0 then []
    else StagesBehind(g, absorbed, k - 1) + if k > 1 && IsView(g.ops[absorbed[k - 1]]) then [] else StagesOf(g.ops[absorbed[k - 1]])
  }

  lemma {:induction false} StagesBehindSame(g: Net, a: seq<nat>, b: seq<nat>, k: nat)
    requires k <= |a| <= |b| && b[..|a|] == a && forall j :: 0 <= j < |b| ==> b[j] < |g.ops|
    ensures forall j :: 0 <= j < |a| ==> a[j] < |g.ops|
    ensures StagesBehind(g, a, k) == StagesBehind(g, b, k)
  {
    assert forall j :: 0 <= j < |a| ==> a[j] == b[j];
    if k > 0 {
      StagesBehindSame(g, a, b, k - 1);
    }
  }

  lemma {:induction false} ViewsAddNothing(g: Net, a: seq<nat>, views: seq<nat>)
    requires a != [] && (forall j :: 0 <= j < |a| ==> a[j] < |g.ops|) && forall v :: v in views ==> v < |g.ops| && IsView(g.ops[v])
    ensures forall j :: 0 <= j < |a + views| ==> (a + views)[j] < |g.ops|
    ensures StagesBehind(g, a + views, |a + views|) == StagesBehind(g, a, |a|)
    decreases |views|
  {
    if views == [] {
      assert a + views == a;
    } else {
      var n := |views| - 1;
      assert views[n] in views;
      assert a + views == (a + views[..n]) + [views[n]];
      ViewsAddNothing(g, a, views[..n]);
      StagesBehindSame(g, a + views[..n], a + views, |a| + n);
    }
  }

  /** The walk's scale is that of the stages behind it. */
  ghost predicate Scales(g: Net, w: Walk) {
    && InOp(g, w) && AtLast(w) && (forall j :: 0 <= j < |w.absorbed| ==> w.absorbed[j] < |g.ops|)
    && (|w.absorbed| > 1 ==> !IsView(g.ops[w.at]))
    && w.scale == Factors(StagesBehind(g, w.absorbed, |w.absorbed| - 1) + Passed(g, w))
  }

  lemma FactorsMore(a: seq<Op>, st: Op)
    ensures Factors(a + [st]) == Factors(a) * Factor(st)
  {
    assert (a + [st])[..|a|] == a;
  }

  lemma TakenFactor(g: Net, p: Problem, w: Walk)
    requires w.pending != [] && TakeStage(g, p, w).Some?
    ensures TakeStage(g, p, w).value.scale == w.scale * Factor(w.pending[0])
  {
    var st := w.pending[0];
    hide IsCausalMask;
    if ScaleOf(st).None? {
      assert Factor(st) == 1.0 by {
        assert |"mul_scalar_f16"| == 14 && |"ewise_scalar_f16"| == 16 && |"ewise2_f16"| == 10 && |"softmax_f16"| == 11
            && |"softmax_dim_f16"| == 15 && |"relu_f16"| == 8 && |"ewise1_f16"| == 10;
      }
    }
  }

  lemma PassedGrows(g: Net, w: Walk, v: Walk)
    requires InOp(g, w) && w.pending != [] && v.at == w.at && v.pending == w.pending[1..]
    ensures InOp(g, v) && Passed(g, v) == Passed(g, w) + [w.pending[0]]
  {
    var s := StagesOf(g.ops[w.at]);
    var j := |s| - |w.pending|;
    hide StagesOf;
    assert s[..j + 1] == s[..j] + [s[j]];
  }

  lemma ScalesMore(g: Net, w: Walk, v: Walk)
    requires Scales(g, w) && w.pending != [] && v.at == w.at && v.absorbed == w.absorbed && v.scale == w.scale * Factor(w.pending[0])
    requires InOp(g, v) && Passed(g, v) == Passed(g, w) + [w.pending[0]]
    ensures Scales(g, v)
  {
    hide Factor, IsView, Factors, StagesBehind, Passed, InOp;
    var before, st := StagesBehind(g, w.absorbed, |w.absorbed| - 1), w.pending[0];
    assert before + (Passed(g, w) + [st]) == (before + Passed(g, w)) + [st];
    FactorsMore(before + Passed(g, w), st);
  }

  lemma TakingScales(g: Net, p: Problem, w: Walk)
    requires Scales(g, w) && w.pending != [] && TakeStage(g, p, w).Some?
    ensures Scales(g, TakeStage(g, p, w).value)
  {
    var v := TakeStage(g, p, w).value;
    assert InOp(g, w);
    hide *;
    TakenKind(g, p, w);
    TakenFactor(g, p, w);
    PassedGrows(g, w, v);
    ScalesMore(g, w, v);
  }

  lemma PassedAll(g: Net, w: Walk)
    requires Scales(g, w) && w.pending == []
    ensures w.scale == Factors(StagesBehind(g, w.absorbed, |w.absorbed|))
  {
    var s := StagesOf(g.ops[w.at]);
    assert s[..|s|] == s;
    hide Factors, IsView;
  }

  lemma NothingPassed(g: Net, v: Walk)
    requires v.at < |g.ops| && v.pending == StagesOf(g.ops[v.at])
    ensures InOp(g, v) && Passed(g, v) == []
  {
  }

  /** Moving to the next op: all stages so far are behind, none of the next op is passed. */
  lemma MovedScales(g: Net, w: Walk, f: Followed, v: Walk)
    requires Scales(g, w) && w.pending == [] && f.op < |g.ops| && !IsView(g.ops[f.op])
    requires forall x :: x in f.views ==> x < |g.ops| && IsView(g.ops[x])
    requires v.absorbed == w.absorbed + f.views + [f.op] && v.scale == w.scale && v.at == f.op && v.pending == StagesOf(g.ops[f.op])
    ensures Scales(g, v)
  {
    hide *;
    AbsorbedIn(g, w);
    PassedAll(g, w);
    ViewsAddNothing(g, w.absorbed, f.views);
    NothingPassed(g, v);
    var before := w.absorbed + f.views;
    assert v.absorbed[..|before|] == before;
    StagesBehindSame(g, before, v.absorbed, |before|);
    assert StagesBehind(g, before, |before|) + [] == StagesBehind(g, before, |before|);
    ToScales(g, v);
  }

  lemma ToScales(g: Net, w: Walk)
    requires InOp(g, w) && w.absorbed != [] && w.absorbed[|w.absorbed| - 1] == w.at && (forall j :: 0 <= j < |w.absorbed| ==> w.absorbed[j] < |g.ops|)
    requires !IsView(g.ops[w.at]) && w.scale == Factors(StagesBehind(g, w.absorbed, |w.absorbed| - 1) + Passed(g, w))
    ensures Scales(g, w)
  {
    hide Factors, StagesBehind, Passed, InOp, IsView;
  }

  lemma MovingScales(g: Net, w: Walk)
    requires Listed(g.ops) && Scales(g, w) && w.pending == [] && !NextOp(g, w).Stuck?
    ensures NextOp(g, w).On? ==> Scales(g, NextOp(g, w).w)
    ensures NextOp(g, w).Reached? ==> var v := NextOp(g, w).w;
      (forall j :: 0 <= j < |v.absorbed| ==> v.absorbed[j] < |g.ops|) && v.scale == Factors(StagesBehind(g, v.absorbed, |v.absorbed|))
  {
    var f, move := Follow(g, w.at).value, NextOp(g, w);
    ScalesIn(g, w);
    FollowsViews(g, w.at);
    FollowEndsBehind(g, w.at);
    hide Follow, Factors, Listed, IsView, Factor, StagesBehind, Scales, StagesOf;
    if move.On? {
      MovedScales(g, w, f, move.w);
    } else {
      PassedAll(g, w);
      AbsorbedIn(g, w);
      ViewsAddNothing(g, w.absorbed, f.views);
    }
  }

  lemma AbsorbedIn(g: Net, w: Walk)
    requires Scales(g, w)
    ensures w.absorbed != [] && forall j :: 0 <= j < |w.absorbed| ==> w.absorbed[j] < |g.ops|
  {
  }

  lemma FollowEndsBehind(g: Net, at: nat)
    requires Listed(g.ops) && at < |g.ops| && Follow(g, at).Some?
    ensures !IsView(g.ops[Follow(g, at).value.op])
  {
    hide Readers;
  }

  lemma {:induction false} WalkScales(g: Net, p: Problem, w: Walk)
    requires Listed(g.ops) && Scales(g, w) && WalkFrom(g, p, w).Some?
    ensures var v := WalkFrom(g, p, w).value.0;
      (forall j :: 0 <= j < |v.absorbed| ==> v.absorbed[j] < |g.ops|) && v.scale == Factors(StagesBehind(g, v.absorbed, |v.absorbed|))
    decreases |g.ops| - w.at, |w.pending|
  {
    ScalesIn(g, w);
    hide Follow, TakeStage, Listed, NextOp, Scales, Factors, StagesBehind;
    if w.pending == [] {
      MovingScales(g, w);
      MovedKeeps(g, w);
      if NextOp(g, w).On? {
        WalkScales(g, p, NextOp(g, w).w);
      }
    } else {
      TakingScales(g, p, w);
      TakenKind(g, p, w);
      WalkScales(g, p, TakeStage(g, p, w).value);
    }
  }

  lemma ScalesIn(g: Net, w: Walk)
    requires Scales(g, w)
    ensures w.at < |g.ops|
  {
  }

  lemma StartScales(g: Net, head: nat)
    requires head < |g.ops| && IsBmm(StagesOf(g.ops[head])[0])
    ensures Scales(g, StartAt(g, head))
  {
    var s, w := StagesOf(g.ops[head]), StartAt(g, head);
    assert s[1..] == s[|s| - |s[1..]|..];
    assert Passed(g, w) == [s[0]];
    assert StagesBehind(g, [head], 0) + [s[0]] == [s[0]];
    assert [s[0]][..0] == [];
    assert |"bmm_f16"| == 7 && |"mul_scalar_f16"| == 14 && |"ewise_scalar_f16"| == 16;
    assert Factor(s[0]) == 1.0;
    assert Factors([s[0]]) == Factors([]) * Factor(s[0]);
  }

  /** The scale of a match is the product of what the absorbed stages multiply scores with. */
  lemma MatchScale(g: Net, head: nat, lookup: Lookup)
    requires Listed(g.ops) && head < |g.ops| && MatchAt(g, head, lookup).Some?
    ensures var m := MatchAt(g, head, lookup).value;
      Inside(g, m) && m.scale == Factors(StagesBehind(g, m.absorbed, |m.absorbed|))
  {
    var m := MatchAt(g, head, lookup).value;
    MatchIsPath(g, head, lookup);
    MatchParts(g, head, lookup);
    hide *;
    StartScales(g, head);
    WalkScales(g, Problem(m.d, lookup), StartAt(g, head));
  }

  // ---------------------------------------------------------------- clean graphs have clean matches

  lemma PathMatchesAreClean(g: Net, m: Match, lookup: Lookup, e: Env)
    requires UniqueNames(g.ops) && Inside(g, m) && CleanPath(g, lookup, e, PathOf(g, m))
    ensures CleanMatch(g, m)
  {
    var path := PathOf(g, m);
    hide CleanOp, Unmissed, KeepsToItself, HonestPath;
    forall k: nat | k < |m.absorbed|
      ensures CleanLink(g, m.absorbed, m.pv, k)
    {
      assert CleanStep(path, k);
    }
    forall d: nat, t | Further(g, m, d, t)
      ensures Unmissed(g, m, t) && t !in g.ops[m.pv].inputs
    {
      FurtherOnPath(g, m, d, t);
    }
  }

  lemma FurtherOnPath(g: Net, m: Match, d: nat, t: Name)
    requires UniqueNames(g.ops) && Inside(g, m) && KeepsToItself(g, PathOf(g, m)) && Further(g, m, d, t)
    ensures Unmissed(g, m, t) && t !in g.ops[m.pv].inputs
  {
    var path := PathOf(g, m);
    var k := DeadIsChain(g, m, d);
    assert path[k] == g.ops[d] && path[k] in path;
    assert UnusedOutside(g, path, t);
    forall i | 0 <= i < |g.ops| && g.ops[i].name !in DeadNames(g, m)
      ensures t !in g.ops[i].inputs
    {
      OffPath(g, m, i);
    }
  }

  lemma OffPath(g: Net, m: Match, i: nat)
    requires Inside(g, m) && i < |g.ops| && g.ops[i].name !in DeadNames(g, m)
    ensures g.ops[i] !in PathOf(g, m)
  {
  }

  /** In a clean graph a match whose layout splits the batch can be replaced. */
  lemma CleanGraphMatch(g: Net, head: nat, lookup: Lookup, layout: Layout, e: Env)
    requires Sound(g) && CleanGraph(g, lookup, e) && head < |g.ops| && FusableAt(g, head, lookup, layout)
    requires var m := MatchAt(g, head, lookup).value; SplitsBatch(layout(m).value, m)
    ensures CleanAt(g, head, lookup, layout, e)
  {
    var m := MatchAt(g, head, lookup).value;
    MatchIsPath(g, head, lookup);
    var path := PathOf(g, m);
    hide MatchAt, ScorePath, CleanMatch, SplitsBatch, HonestMask;
    assert CleanPath(g, lookup, e, path);
    PathMatchesAreClean(g, m, lookup, e);
    forall a, st | a in m.absorbed && a < |g.ops| && st in StagesOf(g.ops[a])
      ensures HonestMask(g, m.d, lookup, e, st)
    {
      var k :| 0 <= k < |m.absorbed| && m.absorbed[k] == a;
      assert path[k] in path;
    }
  }

  lemma CleanGraphMatches(g: Net, head: nat, lookup: Lookup, layout: Layout, e: Env)
    requires Sound(g) && CleanGraph(g, lookup, e) && LayoutSplits(layout) && head < |g.ops| && FusableAt(g, head, lookup, layout)
    ensures CleanAt(g, head, lookup, layout, e)
  {
    hide Sound, CleanGraph, MatchAt, CleanAt, SplitsBatch;
    assert Listed(g.ops) by { SoundListed(g); }
    CleanGraphMatch(g, head, lookup, layout, e);
  }

  lemma SoundListed(g: Net)
    requires Sound(g)
    ensures Listed(g.ops)
  {
  }

  // ---------------------------------------------------------------- replacing makes no new path

  lemma NewIsNoCarrier(f: Op, isHead: bool)
    requires f.body.kind == KIND && f.subOps == []
    ensures !HeadsBmm(f) && !IsPlainBmm(f) && !Carrier(f, false)
  {
    FreshKind(f);
    assert |KIND| == 13 && |"ewise2_f16"| == 10 && |"softmax_dim_f16"| == 15;
    assert !Takes(StagesOf(f)[0]);
  }

  lemma PathOpStays(s: Swap, path: seq<Op>, k: nat)
    requires IsSwap(s) && s.fresh_.body.kind == KIND && ScorePath(s.after, path) && k < |path|
    ensures path[k] in s.g.ops && path[k].name !in s.dead
  {
    NewIsNoCarrier(s.fresh_, false);
    assert s.after == Spliced(s.g.ops, s.dead, s.fresh_) && s.fresh_.subOps == [];
    assert path[k] != s.fresh_ by { hide Carrier, HasAct, HeadsBmm, IsSwap; assert k > 0 && k + 1 < |path| ==> Carrier(path[k], false); }
    assert path[k] in s.after by { hide IsSwap, Carrier, HasAct, HeadsBmm; }
    hide *;
    SplicedMember(s.g.ops, s.dead, s.fresh_, path[k]);
  }

  /** A score path of the rewritten graph is one of the graph before, among the ops that stayed. */
  lemma OldPath(s: Swap, path: seq<Op>)
    requires IsSwap(s) && s.fresh_.body.kind == KIND && ScorePath(s.after, path)
    ensures ScorePath(s.g.ops, path) && forall o :: o in path ==> o.name !in s.dead
  {
    hide IsSwap, Carrier, HasAct, HeadsBmm;
    forall k | 0 <= k < |path|
      ensures path[k] in s.g.ops && path[k].name !in s.dead
    {
      PathOpStays(s, path, k);
    }
  }

  lemma StillToItself(s: Swap, h: Net, path: seq<Op>)
    requires IsSwap(s) && h.ops == s.after && h.outs == s.g.outs && path != [] && KeepsToItself(s.g, path)
    requires forall o :: o in path ==> o.name !in s.dead
    ensures KeepsToItself(h, path)
  {
    hide Spliced, Passes, CleanMatch;
    var head, pv := s.g.ops[s.m.head], s.g.ops[s.m.pv];
    assert head in s.g.ops && pv in s.g.ops && head.name in s.dead && pv.name in s.dead by { DeadEnds(s); }
    forall o, t | o in path && o.outputs != [] && t in o.outputs[1..]
      ensures UnusedOutside(h, path, t)
    {
      assert UnusedOutside(s.g, path, t);
      forall p | p in h.ops && p !in path
        ensures t !in p.inputs
      {
        SplicedMember(s.g.ops, s.dead, s.fresh_, p);
        if p == s.fresh_ && t in p.inputs {
          FreshOperand(s, t);
        }
      }
    }
  }

  lemma DeadEnds(s: Swap)
    requires IsSwap(s)
    ensures s.g.ops[s.m.head].name in s.dead && s.g.ops[s.m.pv].name in s.dead
  {
    hide Spliced, Passes, CleanMatch;
    assert s.m.absorbed[0] == s.m.head;
  }

  lemma MaskStaysHonest(g: Net, h: Net, d: Dims, lookup: Lookup, e: Env, st: Op)
    requires HonestMask(g, d, lookup, e, st) && forall t :: t in h.tensors ==> t in g.tensors && h.tensors[t] == g.tensors[t]
    ensures HonestMask(h, d, lookup, e, st)
  {
    hide IsTriu, Product;
  }

  /** Replacing one match leaves a clean graph clean. */
  lemma StaysClean(s: Swap, h: Net, lookup: Lookup, e: Env)
    requires IsSwap(s) && s.fresh_.body.kind == KIND && CleanGraph(s.g, lookup, e) && h.ops == s.after && h.outs == s.g.outs
    requires forall t :: t in h.tensors ==> t in s.g.tensors && h.tensors[t] == s.g.tensors[t]
    ensures CleanGraph(h, lookup, e)
  {
    hide IsSwap, ScorePath, KeepsToItself, HonestMask, CleanStep, FirstAlone;
    forall path | ScorePath(h.ops, path)
      ensures CleanPath(h, lookup, e, path)
    {
      OldPath(s, path);
      assert |path| >= 2 by { LongEnough(h.ops, path); }
      assert CleanPath(s.g, lookup, e, path);
      StillToItself(s, h, path);
      forall o, st | o in path && st in StagesOf(o) && DimsOf(StagesOf(path[0])[0]).Some?
        ensures HonestMask(h, DimsOf(StagesOf(path[0])[0]).value, lookup, e, st)
      {
        MaskStaysHonest(s.g, h, DimsOf(StagesOf(path[0])[0]).value, lookup, e, st);
      }
    }
  }

  lemma LongEnough(ops: seq<Op>, path: seq<Op>)
    requires ScorePath(ops, path)
    ensures |path| >= 2
  {
  }

  // ---------------------------------------------------------------- a condition on single ops and reads

  /** An op a score path may go through. */
  ghost predicate OnSomePath(o: Op) { HeadsBmm(o) || Carrier(o, false) }

  ghost predicate CleanAlone(o: Op) { CleanOp(o) && |o.outputs| == 1 }

  ghost predicate ReadsAsFirst(a: Op, r: Op) {
    a.outputs != [] && a.outputs[0] in r.inputs ==> StagesOf(r)[0].inputs != [] && StagesOf(r)[0].inputs[0] == a.outputs[0]
  }

  /** Masks are honest whichever score bmm they come behind. */
  ghost predicate HonestBehind(g: Net, lookup: Lookup, e: Env, h: Op, o: Op) {
    forall st :: st in StagesOf(o) && DimsOf(StagesOf(h)[0]).Some? ==> HonestMask(g, DimsOf(StagesOf(h)[0]).value, lookup, e, st)
  }

  /** Every op the walk could stand on is clean and has one output, and whatever of them reads another
      reads it as its first operand. */
  ghost predicate LocallyClean(g: Net, lookup: Lookup, e: Env) {
    && HonestValues(g, lookup, e)
    && (forall o :: o in g.ops && OnSomePath(o) ==> CleanAlone(o))
    && (forall a, r :: a in g.ops && r in g.ops && OnSomePath(a) && OnSomePath(r) ==> ReadsAsFirst(a, r))
    && (forall h, o :: h in g.ops && o in g.ops && HeadsBmm(h) && OnSomePath(o) ==> HonestBehind(g, lookup, e, h, o))
  }

  lemma PathOpIsOnPath(ops: seq<Op>, path: seq<Op>, k: nat)
    requires ScorePath(ops, path) && k < |path|
    ensures path[k] in ops && OnSomePath(path[k]) && (k == 0 ==> HeadsBmm(path[k]))
  {
    hide Carrier, HasAct, Feeds;
    if 0 < k && k + 1 < |path| {
      assert Carrier(path[k], k == 0);
    }
  }

  lemma FeedsOn(ops: seq<Op>, path: seq<Op>, k: nat)
    requires ScorePath(ops, path) && k + 1 < |path|
    ensures Feeds(path, k)
  {
    hide Carrier, HasAct, Feeds;
  }

  /** Looking at single ops and reads is enough. */
  lemma LocallyCleanIsClean(g: Net, lookup: Lookup, e: Env)
    requires LocallyClean(g, lookup, e)
    ensures CleanGraph(g, lookup, e)
  {
    hide ScorePath, OnSomePath, HonestMask, CleanOp, HeadsBmm;
    forall path | ScorePath(g.ops, path)
      ensures CleanPath(g, lookup, e, path)
    {
      LongEnough(g.ops, path);
      forall k: nat | k < |path|
        ensures CleanAlone(path[k]) && HonestBehind(g, lookup, e, path[0], path[k])
      {
        PathOpIsOnPath(g.ops, path, k);
        PathOpIsOnPath(g.ops, path, 0);
      }
      forall k: nat | k + 1 < |path|
        ensures CleanStep(path, k)
      {
        PathOpIsOnPath(g.ops, path, k);
        PathOpIsOnPath(g.ops, path, k + 1);
        FeedsOn(g.ops, path, k);
        assert ReadsAsFirst(path[k], path[k + 1]);
      }
      OneOutputEach(g, path);
      AllHonest(g, lookup, e, path);
    }
  }

  lemma OneOutputEach(g: Net, path: seq<Op>)
    requires path != [] && forall k: nat :: k < |path| ==> CleanAlone(path[k])
    ensures KeepsToItself(g, path) && FirstAlone(path[|path| - 1])
  {
    hide CleanOp, UnusedOutside;
    assert CleanAlone(path[|path| - 1]);
  }

  lemma AllHonest(g: Net, lookup: Lookup, e: Env, path: seq<Op>)
    requires path != [] && forall k: nat :: k < |path| ==> HonestBehind(g, lookup, e, path[0], path[k])
    ensures HonestPath(g, lookup, e, path)
  {
    hide HonestMask;
    forall o, st | o in path && st in StagesOf(o) && DimsOf(StagesOf(path[0])[0]).Some?
      ensures HonestMask(g, DimsOf(StagesOf(path[0])[0]).value, lookup, e, st)
    {
      var k: nat :| k < |path| && path[k] == o;
      assert HonestBehind(g, lookup, e, path[0], path[k]);
    }
  }
}
