/** Graphs that the match accepts although the replacement computes something else
    (pipeline/attention_fuse.py:115-134): what `CleanMatch` asks for is needed. And a graph that it
    treats rightly: what the theorems ask for can be met. */
module AttentionCases {
  import opened Ir
  import opened Schedules
  import opened Attention
  import opened AttentionKernels
  import opened AttentionFuse
  import opened AttentionMeaning
  import opened AttentionRewriting
  import opened AttentionPaths

  function Plain(name: string, body: Body, inputs: seq<Name>, outputs: seq<Name>): Op {
    Op(name, body, inputs, outputs, [], [], None, [], None, Original, map[])
  }

  /** One score: a 1-by-1 bmm. */
  function BmmBody(): Body {
    Body("bmm_f16", map["batch" := 1, "M" := 1, "K" := 1, "N" := 1], map[], map[])
  }

  function HalfBody(): Body { Body("mul_scalar_f16", map[], map["scalar" := 0.5], map[]) }

  function ReluBody(): Body { Body("relu_f16", map[], map[], map[]) }

  const ONES: Env := map["q" := [Fin(1.0)], "k" := [Fin(1.0)], "v" := [Fin(1.0)]]

  // ---------------------------------------------------------------- kernels on single numbers

  lemma BmmOne(k: Kernels, soft: Soft, o: Op, e: Env, a: real, b: real)
    requires Interprets(k, soft) && o.body == BmmBody() && o.subOps == [] && |o.inputs| == 2 && |o.outputs| == 1
    requires Read(e, o.inputs[0]) == [Fin(a)] && Read(e, o.inputs[1]) == [Fin(b)]
    ensures Read(Exec(k, o, e), o.outputs[0]) == [Fin(a * b)]
  {
    var vs := ReadAll(e, o.inputs);
    assert BmmAt(1, 1, 1, vs[0], vs[1], 0) == Add(Fin(0.0), Mul(Fin(a), Fin(b))) by {
      assert Dot(vs[0], 0, vs[1], 0, 1, 0) == Fin(0.0);
      assert Dot(vs[0], 0, vs[1], 0, 1, 1) == Add(Fin(0.0), Mul(Fin(a), Fin(b)));
    }
    assert Number(o, "batch") == 1 && Number(o, "M") == 1 && Number(o, "K") == 1 && Number(o, "N") == 1;
    var r := Bmm(1, 1, 1, 1, vs[0], vs[1]);
    assert BmmOf(o, vs[0], vs[1]) == r;
    assert |r| == 1 && r[0] == Fin(a * b);
    assert r == [Fin(a * b)];
    assert !IsMaskedFill(o);
    StageMakes(k, soft, o, e);
  }

  lemma HalfOne(k: Kernels, soft: Soft, o: Op, e: Env, a: real)
    requires Interprets(k, soft) && o.body == HalfBody() && o.subOps == [] && |o.inputs| == 1 && |o.outputs| == 1
    requires Read(e, o.inputs[0]) == [Fin(a)]
    ensures Read(Exec(k, o, e), o.outputs[0]) == [Fin(0.5 * a)]
  {
    ScaleKinds(o);
    assert !IsMaskedFill(o);
    StageMakes(k, soft, o, e);
  }

  lemma ReluOf(k: Kernels, soft: Soft, o: Op, e: Env)
    requires Interprets(k, soft) && o.body == ReluBody() && o.subOps == [] && |o.inputs| == 1 && |o.outputs| == 1
    ensures Read(Exec(k, o, e), o.outputs[0]) == ReluAll(Read(e, o.inputs[0]))
  {
    assert |"relu_f16"| == 8;
    assert !IsBmm(o) && ScaleOf(o).None? && !IsMaskedFill(o) && !IsRowSoftmax(o);
    StageMakes(k, soft, o, e);
  }

  // ---------------------------------------------------------------- single steps of the walk

  lemma {:induction false} ReadNowhere(names: seq<Name>, t: Name)
    requires t !in names
    ensures Occurrences(names, t) == 0
  {
    OccursIff(names, t);
  }

  lemma ReadOnce(t: Name)
    ensures Occurrences([t], t) == 1
  {
    assert [t][..0] == [];
  }

  lemma ReadAsOneOfTwo(t: Name, u: Name)
    requires t != u
    ensures Occurrences([t, u], t) == 1 && Occurrences([u, t], t) == 1
  {
    assert [t, u][..1] == [t] && [u, t][..1] == [u];
    ReadOnce(t);
    ReadNowhere([u], t);
  }

  lemma ReadersLast(ops: seq<Op>, t: Name, k: nat)
    requires k < |ops|
    ensures Occurrences(ops[k].inputs, t) == 0 ==> Readers(ops, t, k + 1) == Readers(ops, t, k)
    ensures Occurrences(ops[k].inputs, t) == 1 ==> Readers(ops, t, k + 1) == Readers(ops, t, k) + [k]
  {
    hide Occurrences;
  }

  /** The only reader of `t` is op `r`, once. */
  lemma {:induction false} OneReader(ops: seq<Op>, t: Name, k: nat, r: nat)
    requires k <= |ops| && r < |ops| && Occurrences(ops[r].inputs, t) == 1
    requires forall i :: 0 <= i < k && i != r ==> t !in ops[i].inputs
    ensures Readers(ops, t, k) == if r < k then [r] else []
  {
    hide Occurrences, Readers;
    if k > 0 {
      OneReader(ops, t, k - 1, r);
      ReadersLast(ops, t, k - 1);
      if k - 1 != r {
        ReadNowhere(ops[k - 1].inputs, t);
      }
    } else {
      NoReaders(ops, t);
    }
  }

  lemma NoReaders(ops: seq<Op>, t: Name)
    ensures Readers(ops, t, 0) == []
  {
  }

  lemma FollowDirect(g: Net, at: nat, r: nat)
    requires Listed(g.ops) && at < |g.ops| && r < |g.ops| && g.ops[at].outputs != [] && Out(g, at) !in g.outs
    requires Readers(g.ops, Out(g, at), |g.ops|) == [r] && !IsView(g.ops[r])
    ensures Follow(g, at) == Some(Followed(r, Out(g, at), []))
  {
  }

  lemma TakeHalf(g: Net, p: Problem, w: Walk)
    requires w.pending != [] && w.pending[0].body == HalfBody() && w.act.None?
    ensures TakeStage(g, p, w) == Some(w.(pending := w.pending[1..], scale := w.scale * 0.5))
  {
    hide IsCausalMask;
  }

  lemma TakeRelu(g: Net, p: Problem, w: Walk)
    requires w.pending != [] && w.pending[0].body == ReluBody() && w.act.None?
    ensures TakeStage(g, p, w) == Some(w.(pending := w.pending[1..], act := Some(Act.Relu)))
  {
    hide IsCausalMask;
    assert |"relu_f16"| == 8;
    assert ScaleOf(w.pending[0]).None?;
  }

  /** Taking the one stage of the op that reads the score. */
  lemma WalkToPlain(g: Net, p: Problem, w: Walk, r: nat)
    requires Listed(g.ops) && w.at < |g.ops| && w.pending == [] && w.act.None? && r < |g.ops| && w.at < r
    requires Follow(g, w.at).Some? && Follow(g, w.at).value.op == r && Follow(g, w.at).value.views == []
    requires g.ops[r].subOps == [] && !IsBmm(g.ops[r])
    ensures WalkFrom(g, p, w) == WalkFrom(g, p, w.(absorbed := w.absorbed + [r], pending := [g.ops[r]], at := r))
  {
    assert w.absorbed + [] == w.absorbed;
    hide Follow, TakeStage;
  }

  lemma WalkEnds(g: Net, p: Problem, w: Walk, r: nat)
    requires Listed(g.ops) && w.at < |g.ops| && w.pending == [] && r < |g.ops|
    requires Follow(g, w.at).Some? && Follow(g, w.at).value.op == r && Follow(g, w.at).value.views == []
    requires IsPlainBmm(g.ops[r])
    ensures WalkFrom(g, p, w) == Some((w, r))
  {
    assert w.absorbed + [] == w.absorbed;
    hide Follow, TakeStage;
  }

  lemma WalkTakes(g: Net, p: Problem, w: Walk)
    requires Listed(g.ops) && w.at < |g.ops| && w.pending != [] && TakeStage(g, p, w).Some?
    ensures TakeStage(g, p, w).value.at == w.at && WalkFrom(g, p, w) == WalkFrom(g, p, TakeStage(g, p, w).value)
  {
    TakenKind(g, p, w);
    hide Follow, TakeStage;
  }

  /** Op 0 is a bmm with the factor 1/2, op 1 is a relu behind it and op 2 a bmm behind that. */
  ghost predicate HalfReluBmm(g: Net) {
    && |g.ops| > 2 && Listed(g.ops) && g.ops[0].outputs != [] && g.ops[1].outputs != []
    && Readers(g.ops, Out(g, 0), |g.ops|) == [1] && Out(g, 0) !in g.outs
    && Readers(g.ops, Out(g, 1), |g.ops|) == [2] && Out(g, 1) !in g.outs
    && g.ops[1].subOps == [] && g.ops[1].body == ReluBody() && IsPlainBmm(g.ops[2])
  }

  lemma HalfThenRelu(g: Net, p: Problem, half: Op)
    requires HalfReluBmm(g) && half.body == HalfBody() && StartAt(g, 0) == Walk(1.0, false, None, [], [0], [half], 0)
    ensures WalkFrom(g, p, StartAt(g, 0)) == Some((Walk(0.5, false, Some(Act.Relu), [], [0, 1], [], 1), 2))
  {
    var w0 := StartAt(g, 0);
    var w1 := Walk(0.5, false, None, [], [0], [], 0);
    var w2 := Walk(0.5, false, None, [], [0, 1], [g.ops[1]], 1);
    var w3 := Walk(0.5, false, Some(Act.Relu), [], [0, 1], [], 1);
    ReluIsNoBmm(g.ops[1]);
    hide Listed, Readers, WalkFrom, TakeStage, Follow, StartAt;
    FollowDirect(g, 0, 1);
    FollowDirect(g, 1, 2);
    TakeHalf(g, p, w0);
    assert w0.pending[1..] == [] && w0.scale * 0.5 == 0.5;
    assert w0.(pending := w0.pending[1..], scale := w0.scale * 0.5) == w1;
    assert TakeStage(g, p, w0) == Some(w1);
    WalkTakes(g, p, w0);
    WalkToPlain(g, p, w1, 1);
    assert w1.(absorbed := [0] + [1], pending := [g.ops[1]], at := 1) == w2;
    TakeRelu(g, p, w2);
    assert TakeStage(g, p, w2) == Some(w3);
    WalkTakes(g, p, w2);
    WalkEnds(g, p, w3, 2);
  }

  lemma ReluIsNoBmm(o: Op)
    requires o.body == ReluBody()
    ensures !IsBmm(o) && !IsView(o)
  {
    assert |"relu_f16"| == 8;
  }

  // ---------------------------------------------------------------- the score is read before it is scaled

  /** The bmm and the factor 1/2 are one fused op, which hands on both results. Relu reads the unscaled
      scores; somebody else reads the scaled ones. */
  function Exposed(): Net {
    Net([Op("head", Body("fused", map[], map[], map[]), ["q", "k"], ["s", "y"], [],
            [Plain("bmm", BmmBody(), ["q", "k"], ["s"]), Plain("half", HalfBody(), ["s"], ["y"])],
            None, [], None, Original, map[]),
         Plain("act", ReluBody(), ["s"], ["p"]),
         Plain("pv", BmmBody(), ["p", "v"], ["o"]),
         Plain("other", ReluBody(), ["y"], ["z"])],
        map[], {"o", "z"})
  }

  lemma ExposedListed()
    ensures Listed(Exposed().ops)
  {
  }

  lemma ExposedReady()
    ensures Ready(Exposed())
  {
    ExposedListed();
    var ops := Exposed().ops;
    hide Listed;
    assert |"fused"| == 5;
    forall o | o in ops && HeadsBmm(o)
      ensures o == ops[0] || o == ops[2]
    {
      assert |"relu_f16"| == 8;
    }
    assert StagesOf(ops[0])[0].inputs == ["q", "k"];
  }

  /** The walk takes the factor, although nothing downstream of it is matched. */
  lemma ExposedMatch(lookup: Lookup)
    ensures Listed(Exposed().ops)
    ensures MatchAt(Exposed(), 0, lookup) == Some(Match(0, 2, [0, 1], Dims(1, 1, 1), 1, 1, 0.5, false, Act.Relu, []))
  {
    ExposedListed();
    hide Listed, WalkFrom, StartAt;
    ExposedWalk(Problem(Dims(1, 1, 1), lookup));
  }

  lemma ExposedWalk(p: Problem)
    ensures Listed(Exposed().ops)
    ensures WalkFrom(Exposed(), p, StartAt(Exposed(), 0)) == Some((Walk(0.5, false, Some(Act.Relu), [], [0, 1], [], 1), 2))
  {
    var g := Exposed();
    ExposedListed();
    ExposedFacts();
    hide *;
    HalfThenRelu(g, p, Plain("half", HalfBody(), ["s"], ["y"]));
  }

  lemma ExposedFacts()
    ensures HalfReluBmm(Exposed()) && Plain("half", HalfBody(), ["s"], ["y"]).body == HalfBody()
    ensures StartAt(Exposed(), 0) == Walk(1.0, false, None, [], [0], [Plain("half", HalfBody(), ["s"], ["y"])], 0)
  {
    ExposedListed();
    ExposedReads();
    hide Readers, Listed;
  }

  lemma ExposedReads()
    ensures Readers(Exposed().ops, "s", 4) == [1] && Readers(Exposed().ops, "p", 4) == [2]
  {
    var ops := Exposed().ops;
    ReadOnce("s");
    ReadAsOneOfTwo("p", "v");
    hide Readers, Occurrences;
    OneReader(ops, "s", 4, 1);
    OneReader(ops, "p", 4, 2);
  }

  // ---------------------------------------------------------------- what is left of it

  /** A layout for the matches of these graphs. */
  ghost predicate LaysOut(layout: Layout, m: Match) {
    layout(m).Some? && SplitsBatch(layout(m).value, m)
  }

  function ExposedM(): Match { Match(0, 2, [0, 1], Dims(1, 1, 1), 1, 1, 0.5, false, Act.Relu, []) }

  /** The first three ops go, the last one stays behind the replacement. */
  lemma LastStays(ops: seq<Op>, dead: set<string>, fresh_: Op)
    requires |ops| == 4 && ops[0].name in dead && ops[1].name in dead && ops[2].name in dead && ops[3].name !in dead
    requires !MakesOneOf(ops[3], fresh_.inputs)
    ensures Spliced(ops, dead, fresh_) == [fresh_, ops[3]]
  {
    hide MakesOneOf;
    KeptStep(ops, dead, 0);
    KeptStep(ops, dead, 1);
    KeptStep(ops, dead, 2);
    KeptStep(ops, dead, 3);
    assert KeptOps(ops, dead, 4) == [ops[3]];
    assert FirstDead(ops, dead, 4) == 0;
    assert AfterProducers([ops[3]], fresh_.inputs, 1) == 0;
  }

  lemma DotOne(a: real, b: real)
    ensures Dot([Fin(a)], 0, [Fin(b)], 0, 1, 1) == Fin(a * b)
  {
    assert Dot([Fin(a)], 0, [Fin(b)], 0, 1, 0) == Fin(0.0);
  }

  /** One query, one key, all ones, and the factor 1/2 before relu. */
  lemma HalfOfOne(soft: Soft)
    ensures Attended(soft, MatchFormula(ExposedM()), [Fin(1.0)], [Fin(1.0)], [Fin(1.0)]) == [Fin(0.5)]
  {
    var f, one := MatchFormula(ExposedM()), [Fin(1.0)];
    DotOne(1.0, 1.0);
    DotOne(0.5, 1.0);
    hide Dot;
    assert f == Formula(1, 1, 1, 1, 1, 0.5, false, Act.Relu);
    HalfRow(soft, f);
    hide ActRow, ScoreRow;
    var r := Attended(soft, f, one, one, one);
    assert |r| == 1 && r[0] == Fin(0.5);
  }

  lemma HalfRow(soft: Soft, f: Formula)
    requires f == Formula(1, 1, 1, 1, 1, 0.5, false, Act.Relu)
    ensures ActRow(soft, f.act, ScoreRow(f, [Fin(1.0)], [Fin(1.0)], 0)) == [Fin(0.5)]
  {
    DotOne(1.0, 1.0);
    hide Dot;
    assert ScoreAt(f, [Fin(1.0)], [Fin(1.0)], 0, 0) == Fin(0.5);
    var row := ScoreRow(f, [Fin(1.0)], [Fin(1.0)], 0);
    assert row == [Fin(0.5)];
    var r := ActRow(soft, f.act, row);
    assert |r| == 1 && r[0] == AttentionKernels.Relu(row[0]);
  }

  lemma ExposedFused(lookup: Lookup, layout: Layout)
    requires LaysOut(layout, ExposedM())
    ensures Ready(Exposed()) && FusableAt(Exposed(), 0, lookup, layout) && Usable(Exposed(), ExposedM())
    ensures FuseAt(Exposed(), 0, lookup, layout).ops == [AttentionOp(Exposed(), ExposedM(), layout(ExposedM()).value), Exposed().ops[3]]
  {
    var g, m := Exposed(), ExposedM();
    ExposedReady();
    ExposedMatch(lookup);
    hide Ready, MatchAt, AttentionOp;
    FuseAtIs(g, 0, lookup, layout);
    var f := AttentionOp(g, m, layout(m).value);
    FreshInputs(g, m, layout(m).value);
    assert f.inputs == ["q", "k", "v"];
    assert g.ops[m.absorbed[0]].name in DeadNames(g, m) && g.ops[m.absorbed[1]].name in DeadNames(g, m);
    LastStays(g.ops, DeadNames(g, m), f);
  }

  lemma FreshInputs(g: Net, m: Match, numbers: map<string, int>)
    requires Usable(g, m)
    ensures var f := AttentionOp(g, m, numbers);
      && f.inputs == StagesOf(g.ops[m.head])[0].inputs[..2] + [g.ops[m.pv].inputs[1]]
      && f.outputs == [g.ops[m.pv].outputs[0]]
  {
  }

  // ---------------------------------------------------------------- the runs

  lemma RunCons(k: Kernels, o: Op, rest: seq<Op>, env: Env)
    ensures Run(k, [o] + rest, env) == Run(k, rest, Exec(k, o, env))
  {
    assert ([o] + rest)[1..] == rest;
  }

  /** The first op of `Exposed` makes the score and half of it. */
  lemma HeadRuns(k: Kernels, soft: Soft)
    requires Interprets(k, soft)
    ensures var e := Exec(k, Exposed().ops[0], ONES);
      Read(e, "s") == [Fin(1.0)] && Read(e, "y") == [Fin(0.5)] && Read(e, "v") == [Fin(1.0)]
  {
    var head := Exposed().ops[0];
    var bmm, half := head.subOps[0], head.subOps[1];
    hide Interprets;
    var e1 := Exec(k, bmm, ONES);
    BmmOne(k, soft, bmm, ONES, 1.0, 1.0);
    var e2 := Exec(k, half, e1);
    HalfOne(k, soft, half, e1, 1.0);
    ExecFrame(k, half, e1, "s");
    assert head.subOps == [bmm] + [half];
    hide Exec, Run;
    RunCons(k, bmm, [half], ONES);
    RunOne(k, half, e1);
    ExecFused(k, head, ONES, "s");
    ExecFused(k, head, ONES, "y");
    ExecFrame(k, head, ONES, "v");
  }

  lemma ExposedBefore(k: Kernels, soft: Soft)
    requires Interprets(k, soft)
    ensures var e := Run(k, Exposed().ops, ONES); Read(e, "o") == [Fin(1.0)] && Read(e, "z") == [Fin(0.5)]
  {
    var ops := Exposed().ops;
    HeadRuns(k, soft);
    hide Interprets, Exec, Run;
    var e1 := Exec(k, ops[0], ONES);
    var e2 := Exec(k, ops[1], e1);
    ReluOf(k, soft, ops[1], e1);
    ExecFrame(k, ops[1], e1, "v");
    ExecFrame(k, ops[1], e1, "y");
    var e3 := Exec(k, ops[2], e2);
    BmmOne(k, soft, ops[2], e2, 1.0, 1.0);
    ExecFrame(k, ops[2], e2, "y");
    var e4 := Exec(k, ops[3], e3);
    ReluOf(k, soft, ops[3], e3);
    ExecFrame(k, ops[3], e3, "o");
    assert ops == [ops[0]] + ([ops[1]] + ([ops[2]] + [ops[3]]));
    RunCons(k, ops[0], [ops[1]] + ([ops[2]] + [ops[3]]), ONES);
    RunCons(k, ops[1], [ops[2]] + [ops[3]], e1);
    RunCons(k, ops[2], [ops[3]], e2);
    RunOne(k, ops[3], e3);
  }

  /** All a caller could ask of the graph holds, and the match is taken; but the op hands on more than
      its last stage made. The result changes, and another op is left reading a tensor that nobody
      makes. */
  lemma ExposedScoreIsWrong(k: Kernels, soft: Soft, lookup: Lookup, layout: Layout)
    requires Interprets(k, soft) && LaysOut(layout, ExposedM())
    ensures var g := Exposed();
      && Ready(g) && FusableAt(g, 0, lookup, layout) && MatchAt(g, 0, lookup) == Some(ExposedM()) && !CleanMatch(g, ExposedM())
      && var after := FuseAt(g, 0, lookup, layout).ops;
         && Read(Run(k, g.ops, ONES), "o") == [Fin(1.0)] && Read(Run(k, after, ONES), "o") == [Fin(0.5)]
         && Read(Run(k, g.ops, ONES), "z") == [Fin(0.5)] && Read(Run(k, after, ONES), "z") == []
         && (exists o :: o in after && "y" in o.inputs) && !MadeBy(after, "y")
  {
    var g, m := Exposed(), ExposedM();
    ExposedFused(lookup, layout);
    ExposedMatch(lookup);
    var numbers := layout(m).value;
    var f := AttentionOp(g, m, numbers);
    FreshInputs(g, m, numbers);
    assert f.outputs == ["o"];
    hide *;
    ExposedBefore(k, soft);
    ExposedFormula(k, soft, numbers);
    ExposedAfter(k, soft, f);
    ExposedIsNotClean();
    ExposedDangles(f);
  }

  lemma ExposedFormula(k: Kernels, soft: Soft, numbers: map<string, int>)
    requires Interprets(k, soft) && SplitsBatch(numbers, ExposedM()) && Usable(Exposed(), ExposedM())
    ensures var f := AttentionOp(Exposed(), ExposedM(), numbers); First(Exec(k, f, ONES), f.outputs) == [Fin(0.5)]
  {
    hide Interprets, Exec, AttentionOp;
    FreshMakes(k, soft, Exposed(), ExposedM(), numbers, ONES);
    HalfOfOne(soft);
  }

  lemma ExposedAfter(k: Kernels, soft: Soft, f: Op)
    requires Interprets(k, soft) && f.outputs == ["o"] && First(Exec(k, f, ONES), f.outputs) == [Fin(0.5)]
    ensures var e := Run(k, [f, Exposed().ops[3]], ONES); Read(e, "o") == [Fin(0.5)] && Read(e, "z") == []
  {
    var other, e1 := Exposed().ops[3], Exec(k, f, ONES);
    hide Interprets, Exec, Run;
    ReluOf(k, soft, other, e1);
    ExecFrame(k, f, ONES, "y");
    ExecFrame(k, other, e1, "o");
    RunCons(k, f, [other], ONES);
    assert [f] + [other] == [f, other];
    RunOne(k, other, e1);
  }

  lemma ExposedDangles(f: Op)
    requires f.outputs == ["o"]
    ensures var after := [f, Exposed().ops[3]]; (exists o :: o in after && "y" in o.inputs) && !MadeBy(after, "y")
  {
    assert Exposed().ops[3] in [f, Exposed().ops[3]];
  }

  lemma CleanLinkAt(g: Net, m: Match, k: nat)
    requires CleanMatch(g, m) && k < |m.absorbed|
    ensures CleanLink(g, m.absorbed, m.pv, k)
  {
    hide CleanLink;
  }

  lemma ExposedIsNotClean()
    ensures !CleanMatch(Exposed(), ExposedM())
  {
    var g := Exposed();
    assert !CleanOp(g.ops[0]);
    if CleanMatch(g, ExposedM()) {
      CleanLinkAt(g, ExposedM(), 0);
    }
  }

  // ---------------------------------------------------------------- a stage that skips the one before it

  lemma {:induction false} NoneStays(ops: seq<Op>, dead: set<string>, k: nat)
    requires k <= |ops| && forall o :: o in ops ==> o.name in dead
    ensures KeptOps(ops, dead, k) == []
  {
    if k > 0 {
      NoneStays(ops, dead, k - 1);
    }
  }

  lemma OnlyNew(ops: seq<Op>, dead: set<string>, fresh_: Op)
    requires forall o :: o in ops ==> o.name in dead
    ensures Spliced(ops, dead, fresh_) == [fresh_]
  {
    NoneStays(ops, dead, |ops|);
    SplicedIs(ops, dead, fresh_);
    hide KeptOps, Spliced, InsertAt;
  }

  /** Relu is a stage of the score bmm's own op, after the factor, but reads the unscaled scores. */
  function Skipping(): Net {
    Net([Op("head", Body("fused", map[], map[], map[]), ["q", "k"], ["p"], [],
            [Plain("bmm", BmmBody(), ["q", "k"], ["s"]), Plain("half", HalfBody(), ["s"], ["y"]), Plain("act", ReluBody(), ["s"], ["p"])],
            None, [], None, Original, map[]),
         Plain("pv", BmmBody(), ["p", "v"], ["o"])],
        map[], {"o"})
  }

  function SkippingM(): Match { Match(0, 1, [0], Dims(1, 1, 1), 1, 1, 0.5, false, Act.Relu, []) }

  lemma SkippingReady()
    ensures Ready(Skipping())
  {
    assert |"fused"| == 5;
  }

  lemma StagesThenBmm(g: Net, p: Problem, half: Op, act: Op)
    requires |g.ops| == 2 && Listed(g.ops) && g.ops[0].outputs != [] && IsPlainBmm(g.ops[1])
    requires Readers(g.ops, Out(g, 0), 2) == [1] && Out(g, 0) !in g.outs
    requires half.body == HalfBody() && act.body == ReluBody() && StartAt(g, 0) == Walk(1.0, false, None, [], [0], [half, act], 0)
    ensures WalkFrom(g, p, StartAt(g, 0)) == Some((Walk(0.5, false, Some(Act.Relu), [], [0], [], 0), 1))
  {
    var w0 := StartAt(g, 0);
    var w1 := Walk(0.5, false, None, [], [0], [act], 0);
    var w2 := Walk(0.5, false, Some(Act.Relu), [], [0], [], 0);
    BmmIsNoView(g.ops[1]);
    hide Listed, Readers, WalkFrom, TakeStage, Follow, StartAt;
    FollowDirect(g, 0, 1);
    TakeHalf(g, p, w0);
    assert w0.pending[1..] == [act] && w0.scale * 0.5 == 0.5;
    assert TakeStage(g, p, w0) == Some(w1);
    WalkTakes(g, p, w0);
    TakeRelu(g, p, w1);
    assert TakeStage(g, p, w1) == Some(w2);
    WalkTakes(g, p, w1);
    WalkEnds(g, p, w2, 1);
  }

  lemma BmmIsNoView(o: Op)
    requires IsBmm(o)
    ensures !IsView(o)
  {
    assert |"bmm_f16"| == 7;
  }

  lemma SkippingReads()
    ensures Readers(Skipping().ops, "p", 2) == [1]
  {
    var ops := Skipping().ops;
    ReadAsOneOfTwo("p", "v");
    hide Readers, Occurrences;
    OneReader(ops, "p", 2, 1);
  }

  lemma SkippingWalk(p: Problem)
    ensures Listed(Skipping().ops)
    ensures WalkFrom(Skipping(), p, StartAt(Skipping(), 0)) == Some((Walk(0.5, false, Some(Act.Relu), [], [0], [], 0), 1))
  {
    var g := Skipping();
    var half, act := g.ops[0].subOps[1], g.ops[0].subOps[2];
    SkippingReady();
    SkippingReads();
    assert StartAt(g, 0).pending == [half, act];
    hide Readers, WalkFrom, Listed;
    StagesThenBmm(g, p, half, act);
  }

  lemma SkippingMatch(lookup: Lookup)
    ensures Listed(Skipping().ops) && MatchAt(Skipping(), 0, lookup) == Some(SkippingM())
  {
    SkippingReady();
    hide Listed, WalkFrom, StartAt;
    SkippingWalk(Problem(Dims(1, 1, 1), lookup));
  }

  lemma SkippingBefore(k: Kernels, soft: Soft)
    requires Interprets(k, soft)
    ensures Read(Run(k, Skipping().ops, ONES), "o") == [Fin(1.0)]
  {
    var head, pv := Skipping().ops[0], Skipping().ops[1];
    var bmm, half, act := head.subOps[0], head.subOps[1], head.subOps[2];
    hide Interprets;
    var e1 := Exec(k, bmm, ONES);
    BmmOne(k, soft, bmm, ONES, 1.0, 1.0);
    var e2 := Exec(k, half, e1);
    ExecFrame(k, half, e1, "s");
    var e3 := Exec(k, act, e2);
    ReluOf(k, soft, act, e2);
    assert head.subOps == [bmm] + ([half] + [act]);
    hide Exec, Run;
    RunCons(k, bmm, [half] + [act], ONES);
    RunCons(k, half, [act], e1);
    RunOne(k, act, e2);
    ExecFused(k, head, ONES, "p");
    ExecFrame(k, head, ONES, "v");
    var h := Exec(k, head, ONES);
    BmmOne(k, soft, pv, h, 1.0, 1.0);
    assert Skipping().ops == [head] + [pv];
    RunCons(k, head, [pv], ONES);
    RunOne(k, pv, h);
  }

  lemma SkippingFused(lookup: Lookup, layout: Layout)
    requires LaysOut(layout, SkippingM())
    ensures Ready(Skipping()) && FusableAt(Skipping(), 0, lookup, layout) && Usable(Skipping(), SkippingM())
    ensures FuseAt(Skipping(), 0, lookup, layout).ops == [AttentionOp(Skipping(), SkippingM(), layout(SkippingM()).value)]
  {
    var g, m := Skipping(), SkippingM();
    SkippingReady();
    SkippingMatch(lookup);
    hide Ready, MatchAt, AttentionOp;
    FuseAtIs(g, 0, lookup, layout);
    assert g.ops[m.absorbed[0]].name in DeadNames(g, m);
    OnlyNew(g.ops, DeadNames(g, m), AttentionOp(g, m, layout(m).value));
  }

  /** The match is taken, but a stage does not read the one before it: the result changes. */
  lemma SkippedStageIsWrong(k: Kernels, soft: Soft, lookup: Lookup, layout: Layout)
    requires Interprets(k, soft) && LaysOut(layout, SkippingM())
    ensures var g := Skipping();
      && Ready(g) && FusableAt(g, 0, lookup, layout) && MatchAt(g, 0, lookup) == Some(SkippingM()) && !CleanMatch(g, SkippingM())
      && Read(Run(k, g.ops, ONES), "o") == [Fin(1.0)] && Read(Run(k, FuseAt(g, 0, lookup, layout).ops, ONES), "o") == [Fin(0.5)]
  {
    var g, m := Skipping(), SkippingM();
    SkippingFused(lookup, layout);
    SkippingMatch(lookup);
    SkippingIsNotClean();
    hide *;
    SkippingBefore(k, soft);
    SkippingAfter(k, soft, layout(m).value);
  }

  lemma SkippingIsNotClean()
    ensures !CleanMatch(Skipping(), SkippingM())
  {
    var g := Skipping();
    assert !Chained(StagesOf(g.ops[0]), 2);
    assert !CleanLink(g, [0], 1, 0);
    if CleanMatch(g, SkippingM()) {
      CleanLinkAt(g, SkippingM(), 0);
    }
  }

  lemma SkippingAfter(k: Kernels, soft: Soft, numbers: map<string, int>)
    requires Interprets(k, soft) && SplitsBatch(numbers, SkippingM()) && Usable(Skipping(), SkippingM())
    ensures Read(Run(k, [AttentionOp(Skipping(), SkippingM(), numbers)], ONES), "o") == [Fin(0.5)]
  {
    var f := AttentionOp(Skipping(), SkippingM(), numbers);
    FreshInputs(Skipping(), SkippingM(), numbers);
    hide Interprets, Exec, AttentionOp, Attended;
    FreshMakes(k, soft, Skipping(), SkippingM(), numbers, ONES);
    HalfOfOne(soft);
    assert MatchFormula(SkippingM()) == MatchFormula(ExposedM());
    RunOne(k, f, ONES);
  }

  // ---------------------------------------------------------------- probabilities as the second matrix

  /** The second bmm multiplies something else with the probabilities, not the probabilities with it. */
  function Swapped(): Net {
    Net([Op("head", Body("fused", map[], map[], map[]), ["q", "k"], ["y"], [],
            [Plain("bmm", BmmBody(), ["q", "k"], ["s"]), Plain("half", HalfBody(), ["s"], ["y"])],
            None, [], None, Original, map[]),
         Plain("act", ReluBody(), ["y"], ["p"]),
         Plain("pv", BmmBody(), ["v", "p"], ["o"])],
        map[], {"o"})
  }

  lemma SwappedReady()
    ensures Ready(Swapped())
  {
    assert |"fused"| == 5 && |"relu_f16"| == 8;
  }

  lemma SwappedReads()
    ensures Readers(Swapped().ops, "y", 3) == [1] && Readers(Swapped().ops, "p", 3) == [2]
  {
    var ops := Swapped().ops;
    ReadOnce("y");
    ReadAsOneOfTwo("p", "v");
    hide Readers, Occurrences;
    OneReader(ops, "y", 3, 1);
    OneReader(ops, "p", 3, 2);
  }

  lemma SwappedFacts()
    ensures HalfReluBmm(Swapped())
    ensures StartAt(Swapped(), 0) == Walk(1.0, false, None, [], [0], [Plain("half", HalfBody(), ["s"], ["y"])], 0)
  {
    SwappedReady();
    SwappedReads();
    hide Readers, Listed;
  }

  lemma SwappedMatch(lookup: Lookup)
    ensures Listed(Swapped().ops) && MatchAt(Swapped(), 0, lookup) == Some(ExposedM())
  {
    SwappedReady();
    SwappedFacts();
    HalfThenRelu(Swapped(), Problem(Dims(1, 1, 1), lookup), Plain("half", HalfBody(), ["s"], ["y"]));
    hide Listed, WalkFrom, StartAt, HalfReluBmm;
  }

  lemma SwappedFused(lookup: Lookup, layout: Layout)
    requires LaysOut(layout, ExposedM())
    ensures Ready(Swapped()) && FusableAt(Swapped(), 0, lookup, layout) && Usable(Swapped(), ExposedM())
    ensures FuseAt(Swapped(), 0, lookup, layout).ops == [AttentionOp(Swapped(), ExposedM(), layout(ExposedM()).value)]
  {
    var g, m := Swapped(), ExposedM();
    SwappedReady();
    SwappedMatch(lookup);
    hide Ready, MatchAt, AttentionOp;
    FuseAtIs(g, 0, lookup, layout);
    assert g.ops[m.absorbed[0]].name in DeadNames(g, m) && g.ops[m.absorbed[1]].name in DeadNames(g, m);
    OnlyNew(g.ops, DeadNames(g, m), AttentionOp(g, m, layout(m).value));
  }

  /** The match is taken, but the probabilities are the second matrix: the replacement reads them,
      although it stands for the ops that made them. */
  lemma SecondMatrixIsWrong(lookup: Lookup, layout: Layout)
    requires LaysOut(layout, ExposedM())
    ensures var g := Swapped();
      && Ready(g) && FusableAt(g, 0, lookup, layout) && MatchAt(g, 0, lookup) == Some(ExposedM()) && !CleanMatch(g, ExposedM())
      && var after := FuseAt(g, 0, lookup, layout).ops;
         (exists o :: o in after && "p" in o.inputs) && !MadeBy(after, "p") && MadeBy(g.ops, "p")
  {
    var g, m := Swapped(), ExposedM();
    var numbers := layout(m).value;
    hide *;
    SwappedFused(lookup, layout);
    SwappedMatch(lookup);
    SwappedDangles(AttentionOp(g, m, numbers), numbers);
    SwappedIsNotClean();
  }

  lemma SwappedDangles(f: Op, numbers: map<string, int>)
    requires Usable(Swapped(), ExposedM()) && f == AttentionOp(Swapped(), ExposedM(), numbers)
    ensures (exists o :: o in [f] && "p" in o.inputs) && !MadeBy([f], "p") && MadeBy(Swapped().ops, "p")
  {
    var g := Swapped();
    FreshInputs(g, ExposedM(), numbers);
    hide AttentionOp;
    assert f in [f] && "p" in f.inputs && f.outputs == ["o"];
    assert g.ops[1] in g.ops && "p" in g.ops[1].outputs;
  }

  lemma SwappedIsNotClean()
    ensures !CleanMatch(Swapped(), ExposedM())
  {
    var g, m := Swapped(), ExposedM();
    assert !CleanLink(g, [0, 1], 2, 1);
    if CleanMatch(g, m) {
      CleanLinkAt(g, m, 1);
    }
  }

  // ---------------------------------------------------------------- a chain of plain ops

  /** A bmm, the factor 1/2, relu and a bmm, each its own op. */
  function Straight(): Net {
    Net([Plain("bmm", BmmBody(), ["q", "k"], ["s"]),
         Plain("half", HalfBody(), ["s"], ["y"]),
         Plain("act", ReluBody(), ["y"], ["p"]),
         Plain("pv", BmmBody(), ["p", "v"], ["o"])],
        map[], {"o"})
  }

  function StraightM(): Match { Match(0, 3, [0, 1, 2], Dims(1, 1, 1), 1, 1, 0.5, false, Act.Relu, []) }

  lemma StraightKinds()
    ensures var ops := Straight().ops; HeadsBmm(ops[0]) && !HeadsBmm(ops[1]) && !HeadsBmm(ops[2]) && HeadsBmm(ops[3])
    ensures forall i :: 0 <= i < 4 ==> !IsView(Straight().ops[i]) && !IsMaskedFill(Straight().ops[i])
  {
    assert |"bmm_f16"| == 7 && |"mul_scalar_f16"| == 14 && |"relu_f16"| == 8 && |"view"| == 4 && |"ewise2_f16"| == 10;
  }

  lemma StraightReady()
    ensures Ready(Straight())
  {
    StraightKinds();
    hide HeadsBmm, IsView;
  }

  lemma StraightReads()
    ensures Readers(Straight().ops, "s", 4) == [1] && Readers(Straight().ops, "y", 4) == [2] && Readers(Straight().ops, "p", 4) == [3]
  {
    var ops := Straight().ops;
    ReadOnce("s");
    ReadOnce("y");
    ReadAsOneOfTwo("p", "v");
    hide Readers, Occurrences;
    OneReader(ops, "s", 4, 1);
    OneReader(ops, "y", 4, 2);
    OneReader(ops, "p", 4, 3);
  }

  /** Ops 0 to 3 are a bmm, the factor 1/2, relu and a bmm, each handing on to the next. */
  ghost predicate PlainChain(g: Net) {
    && |g.ops| == 4 && Listed(g.ops) && (forall i :: 0 <= i < 4 ==> g.ops[i].outputs != [] && g.ops[i].subOps == [] && !IsView(g.ops[i]))
    && (forall i: nat :: i < 3 ==> Readers(g.ops, Out(g, i), 4) == [i + 1] && Out(g, i) !in g.outs)
    && g.ops[1].body == HalfBody() && g.ops[2].body == ReluBody() && IsPlainBmm(g.ops[3]) && !IsBmm(g.ops[1]) && !IsBmm(g.ops[2])
  }

  lemma StraightParts()
    ensures var g := Straight(); |g.ops| == 4 && g.outs == {"o"} && forall i :: 0 <= i < 4 ==> g.ops[i].outputs != [] && g.ops[i].subOps == []
    ensures var g := Straight(); Out(g, 0) == "s" && Out(g, 1) == "y" && Out(g, 2) == "p"
    ensures var g := Straight(); g.ops[1].body == HalfBody() && g.ops[2].body == ReluBody()
  {
  }

  lemma HeadsItself(o: Op)
    requires o.subOps == []
    ensures HeadsBmm(o) <==> IsBmm(o)
  {
  }

  lemma StraightIsPlainChain()
    ensures PlainChain(Straight())
  {
    StraightReady();
    assert Listed(Straight().ops);
    hide *;
    StraightReads();
    StraightKinds();
    StraightParts();
    HeadsItself(Straight().ops[1]);
    HeadsItself(Straight().ops[2]);
    HeadsItself(Straight().ops[3]);
    ToPlainChain(Straight(), "s", "y", "p");
  }

  lemma ToPlainChain(g: Net, s: Name, y: Name, p: Name)
    requires |g.ops| == 4 && Listed(g.ops) && s !in g.outs && y !in g.outs && p !in g.outs
    requires forall i :: 0 <= i < 4 ==> g.ops[i].outputs != [] && g.ops[i].subOps == [] && !IsView(g.ops[i])
    requires Out(g, 0) == s && Out(g, 1) == y && Out(g, 2) == p
    requires Readers(g.ops, s, 4) == [1] && Readers(g.ops, y, 4) == [2] && Readers(g.ops, p, 4) == [3]
    requires g.ops[1].body == HalfBody() && g.ops[2].body == ReluBody() && IsBmm(g.ops[3]) && !IsBmm(g.ops[1]) && !IsBmm(g.ops[2])
    ensures PlainChain(g)
  {
    hide Readers, Listed, IsView, IsBmm, HalfBody, ReluBody;
    forall i: nat | i < 3
      ensures Readers(g.ops, Out(g, i), 4) == [i + 1] && Out(g, i) !in g.outs
    {
      assert i == 0 || i == 1 || i == 2;
    }
  }

  lemma FollowsNext(g: Net, i: nat)
    requires PlainChain(g) && i < 3
    ensures Follow(g, i) == Some(Followed(i + 1, Out(g, i), []))
  {
    hide Listed, Readers, Follow, IsView;
    FollowDirect(g, i, i + 1);
  }

  lemma PlainWalk(g: Net, p: Problem)
    requires PlainChain(g)
    ensures StartAt(g, 0) == Walk(1.0, false, None, [], [0], [], 0)
    ensures WalkFrom(g, p, StartAt(g, 0)) == Some((Walk(0.5, false, Some(Act.Relu), [], [0, 1, 2], [], 2), 3))
  {
    var half, act := g.ops[1], g.ops[2];
    var w0, w1 := Walk(1.0, false, None, [], [0], [], 0), Walk(1.0, false, None, [], [0, 1], [half], 1);
    var w2, w3 := Walk(0.5, false, None, [], [0, 1], [], 1), Walk(0.5, false, None, [], [0, 1, 2], [act], 2);
    var w4 := Walk(0.5, false, Some(Act.Relu), [], [0, 1, 2], [], 2);
    assert StagesOf(g.ops[0])[1..] == [];
    FollowsNext(g, 0);
    FollowsNext(g, 1);
    FollowsNext(g, 2);
    hide Listed, Readers, WalkFrom, TakeStage, Follow, IsView;
    WalkToPlain(g, p, w0, 1);
    assert w0.(absorbed := [0] + [1], pending := [half], at := 1) == w1;
    TakeHalf(g, p, w1);
    assert w1.pending[1..] == [] && w1.scale * 0.5 == 0.5;
    assert TakeStage(g, p, w1) == Some(w2);
    WalkTakes(g, p, w1);
    WalkToPlain(g, p, w2, 2);
    assert w2.(absorbed := [0, 1] + [2], pending := [act], at := 2) == w3;
    TakeRelu(g, p, w3);
    assert w3.pending[1..] == [];
    assert TakeStage(g, p, w3) == Some(w4);
    WalkTakes(g, p, w3);
    WalkEnds(g, p, w4, 3);
  }

  /** The numbers of a match of 1-by-1 bmms. */
  lemma OneByOne(o: Op)
    requires o.body == BmmBody()
    ensures IsBmm(o) && DimsOf(o) == Some(Dims(1, 1, 1)) && Number(o, "batch") == 1 && Number(o, "M") == 1 && Number(o, "K") == 1 && Number(o, "N") == 1
  {
  }

  lemma MatchOf(g: Net, lookup: Lookup, w: Walk, pv: nat)
    requires Listed(g.ops) && |g.ops| > 0 && pv < |g.ops| && StagesOf(g.ops[0])[0].body == BmmBody() && g.ops[pv].body == BmmBody()
    requires WalkFrom(g, Problem(Dims(1, 1, 1), lookup), StartAt(g, 0)) == Some((w, pv)) && w.act.Some?
    ensures MatchAt(g, 0, lookup) == Some(Match(0, pv, w.absorbed, Dims(1, 1, 1), 1, 1, w.scale, w.causal, w.act.value, w.masks))
  {
    OneByOne(StagesOf(g.ops[0])[0]);
    OneByOne(g.ops[pv]);
    hide Listed, WalkFrom, StartAt, BmmBody, IsBmm, DimsOf, Number;
  }

  lemma StraightBmms()
    ensures var g := Straight(); |g.ops| == 4 && StagesOf(g.ops[0])[0].body == BmmBody() && g.ops[3].body == BmmBody()
  {
  }

  lemma StraightMatch(lookup: Lookup)
    ensures Listed(Straight().ops) && MatchAt(Straight(), 0, lookup) == Some(StraightM())
  {
    StraightReady();
    assert Listed(Straight().ops);
    assert StraightM() == Match(0, 3, [0, 1, 2], Dims(1, 1, 1), 1, 1, 0.5, false, Act.Relu, []);
    hide *;
    StraightIsPlainChain();
    PlainWalk(Straight(), Problem(Dims(1, 1, 1), lookup));
    StraightBmms();
    MatchOf(Straight(), lookup, Walk(0.5, false, Some(Act.Relu), [], [0, 1, 2], [], 2), 3);
  }

  lemma StraightIsSound()
    ensures Sound(Straight())
  {
    StraightReady();
    hide Ready;
    var g := Straight();
    assert forall o :: o in g.ops ==> StagesOf(o) == [o];
  }

  lemma StraightOps(o: Op)
    requires o in Straight().ops
    ensures CleanAlone(o) && StagesOf(o) == [o] && o.inputs != [] && !IsMaskedFill(o)
  {
    StraightKinds();
    assert Chained([o], 0);
  }

  /** Each reads another's result as its first operand. */
  lemma StraightInputs(a: Op, r: Op)
    requires a in Straight().ops && r in Straight().ops
    ensures a.outputs != [] && (a.outputs[0] in r.inputs ==> r.inputs != [] && r.inputs[0] == a.outputs[0])
  {
  }

  lemma PlainIsLocallyClean(g: Net, lookup: Lookup, e: Env)
    requires g.tensors == map[] && forall o :: o in g.ops ==> CleanAlone(o) && StagesOf(o) == [o] && !IsMaskedFill(o)
    requires forall a, r :: a in g.ops && r in g.ops ==> ReadsAsFirst(a, r)
    ensures LocallyClean(g, lookup, e)
  {
    hide CleanAlone, OnSomePath, HeadsBmm, IsMaskedFill, ReadsAsFirst;
    forall h, o | h in g.ops && o in g.ops && HeadsBmm(h) && OnSomePath(o)
      ensures HonestBehind(g, lookup, e, h, o)
    {
      NoMaskIsHonest(g, lookup, e, h, o);
    }
  }

  lemma NoMaskIsHonest(g: Net, lookup: Lookup, e: Env, h: Op, o: Op)
    requires StagesOf(o) == [o] && !IsMaskedFill(o)
    ensures HonestBehind(g, lookup, e, h, o)
  {
    hide IsMaskedFill, IsTriu, Product;
  }

  lemma StraightIsClean(lookup: Lookup)
    ensures CleanGraph(Straight(), lookup, ONES)
  {
    var g := Straight();
    assert g.tensors == map[];
    hide CleanAlone, CleanGraph, IsMaskedFill, Straight, LocallyClean, StagesOf;
    forall a, r | a in g.ops && r in g.ops
      ensures ReadsAsFirst(a, r) && CleanAlone(a) && StagesOf(a) == [a] && !IsMaskedFill(a)
    {
      StraightOps(a);
      StraightOps(r);
      StraightInputs(a, r);
    }
    PlainIsLocallyClean(g, lookup, ONES);
    LocallyCleanIsClean(g, lookup, ONES);
  }

  /** The theorems are about something: a chain of plain ops meets what they ask for, the reference
      kernels mean what they should, and the rewritten graph computes the same result. */
  lemma StraightIsFused(soft: Soft, lookup: Lookup, layout: Layout)
    requires LaysOut(layout, StraightM())
    ensures var g := Straight();
      && Sound(g) && CleanGraph(g, lookup, ONES) && CleanAt(g, 0, lookup, layout, ONES) && MatchAt(g, 0, lookup) == Some(StraightM())
      && Interprets(Reference(soft), soft)
      && Read(Run(Reference(soft), FuseAt(g, 0, lookup, layout).ops, ONES), "o") == Read(Run(Reference(soft), g.ops, ONES), "o")
  {
    var g := Straight();
    hide *;
    StraightIsSound();
    StraightIsClean(lookup);
    StraightMatch(lookup);
    StraightFits(lookup, layout);
    ReferenceInterprets(soft);
    assert "o" in g.outs by { StraightOuts(); }
    OutputsAreKept(g, 0, lookup, layout, ONES, "o");
    FusingPreservesMeaning(Reference(soft), soft, g, 0, lookup, layout, ONES, "o");
  }

  lemma StraightOuts()
    ensures "o" in Straight().outs
  {
  }

  lemma StraightFits(lookup: Lookup, layout: Layout)
    requires LaysOut(layout, StraightM()) && CleanGraph(Straight(), lookup, ONES) && Sound(Straight())
    requires Listed(Straight().ops) && MatchAt(Straight(), 0, lookup) == Some(StraightM())
    ensures CleanAt(Straight(), 0, lookup, layout, ONES)
  {
    hide MatchAt, CleanGraph, Sound;
    assert Sound(Straight());
    CleanGraphMatch(Straight(), 0, lookup, layout, ONES);
  }
}
