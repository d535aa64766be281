/** Fusion preserves meaning (pipeline/apply_fusion_hint.py).

    In a view-free graph where every tensor has one producer and readers depend on producers, any
    order the rewritten dependencies allow gives every tensor that is not internal to a fused op
    the value it had before, and nobody outside reads an internal tensor. */
module FusionMeaning {
  import opened Ir
  import opened Seqs
  import opened Fusion
  import opened FusionRewrite
  import opened Renumbering
  import opened Schedules

  /** The graphs and hints the claim is about. */
  ghost predicate Fusible(job: Job) {
    Dataflow(job.ops) && AllValid(job.groups, ById(job.ops)) && NoOverlap(job.groups)
  }

  lemma FusibleIsReady(job: Job)
    requires Fusible(job)
    ensures Ready(job) && NonEmptyGroups(job.groups)
    ensures forall g :: g in job.groups ==> Valid(g, ById(job.ops)) && Known(g, ById(job.ops)) && Distinct(g) && InTopologicalOrder(g, ById(job.ops))
  {
    forall g | g in job.groups
      ensures Valid(g, ById(job.ops))
    {
      var i :| 0 <= i < |job.groups| && job.groups[i] == g;
    }
  }

  ghost function Result(job: Job): seq<Op>
    requires WellGrouped(job) && Rewrite(job).Ok?
  {
    Rewrite(job).value.ops
  }

  /** The op that `x` ends up in. */
  ghost predicate BecomesOp(job: Job, x: int, n: Op)
    requires WellGrouped(job) && Rewrite(job).Ok?
  {
    x in Finished(job).remap && Finished(job).remap[x] in ById(Result(job)) && n == ById(Result(job))[Finished(job).remap[x]]
  }

  lemma BecomesAlone(job: Job, x: int) returns (n: Op)
    requires Ready(job) && Rewrite(job).Ok? && x in ById(job.ops) && GroupFor(job.groups, x).None?
    ensures BecomesOp(job, x, n) && n in Result(job)
    ensures var o := ById(job.ops)[x]; n.body == o.body && n.inputs == o.inputs && n.outputs == o.outputs && n.subOps == o.subOps
  {
    hide FirstPass, ExternalDeps, Members, ById, FusedOp, SecondPass, OrderedUnique, KnownImage;
    var s, w := Finished(job), Rewrite(job).value;
    AllSeen(job);
    RewriteIsSecondPass(job);
    ByIdRewired(s, s.ops, w.ops);
    var v := s.remap[x];
    n := ById(w.ops)[v];
    ByIdHas(w.ops, v);
    assert Rewire(s, ById(s.ops)[v]) == Ok(n);
    RewireKeeps(s, ById(s.ops)[v], n);
  }

  lemma RewireKeeps(s: Pass, o: Op, n: Op)
    requires Rewire(s, o) == Ok(n)
    ensures n == o.(deps := n.deps)
  {
  }

  lemma BecomesFused(job: Job, x: int, g: seq<int>) returns (n: Op)
    requires Ready(job) && Rewrite(job).Ok? && x in ById(job.ops) && GroupFor(job.groups, x) == Some(g)
    ensures BecomesOp(job, x, n) && n in Result(job)
    ensures n == FusedOp(job, g, Members(ById(job.ops), g)).(id := Some(Finished(job).remap[x]), deps := n.deps)
  {
    hide FirstPass, ExternalDeps, Members, ById, FusedOp, SecondPass, OrderedUnique, KnownImage;
    var s, w := Finished(job), Rewrite(job).value;
    AllSeen(job);
    RewriteIsSecondPass(job);
    ByIdRewired(s, s.ops, w.ops);
    var v := s.remap[x];
    n := ById(w.ops)[v];
    ByIdHas(w.ops, v);
    assert Rewire(s, ById(s.ops)[v]) == Ok(n);
    RewireKeeps(s, ById(s.ops)[v], n);
  }

  /** Every op of the result is what some op of the input became. */
  lemma ResultCovered(job: Job, n: Op) returns (x: int)
    requires Fusible(job) && WellGrouped(job) && Rewrite(job).Ok? && n in Result(job)
    ensures x in ById(job.ops) && BecomesOp(job, x, n)
  {
    FusibleIsReady(job);
    RenumberingIsLossless(job);
    AllSeen(job);
    RewriteIsSecondPass(job);
    NoViews(job, |job.ops|);
    var s, w := Finished(job), Rewrite(job).value;
    var j :| 0 <= j < |w.ops| && w.ops[j] == n;
    assert s.ops[j] in s.ops && Rewire(s, s.ops[j]) == Ok(n);
    assert n in w.ops;
    hide *;
    RewireId(s, s.ops[j], n);
    x := OwnerOfId(job, w.ops, s.remap, j);
    BecomesMeans(job, x, n);
  }

  lemma OwnerOfId(job: Job, ops: seq<Op>, m: map<int, int>, j: nat) returns (x: int)
    requires LosslessRemap(job, m, IdsOf(ops)) && j < |ops| && ops[j].id.Some?
    ensures x in m && Some(m[x]) == ops[j].id && m[x] in ById(ops) && ById(ops)[m[x]] == ops[j] && x in ById(job.ops)
  {
    hide ById, IdsOf;
    CountedIsUnique(ops);
    ByIdAt(ops, j);
    var i := IdsAreWhere(ops, j);
    assert Hit(m, i);
    x :| x in m && m[x] == i;
  }

  lemma BecomesMeans(job: Job, x: int, n: Op)
    requires WellGrouped(job) && Rewrite(job).Ok?
    ensures BecomesOp(job, x, n) <==>
      x in Finished(job).remap && Finished(job).remap[x] in ById(Result(job)) && n == ById(Result(job))[Finished(job).remap[x]]
    ensures Result(job) == Rewrite(job).value.ops
  {
  }

  lemma RewireId(s: Pass, o: Op, n: Op)
    requires Rewire(s, o) == Ok(n)
    ensures n.id == o.id
  {
  }

  lemma {:induction false} NoViews(job: Job, k: nat)
    requires WellGrouped(job) && DistinctIds(job.ops) && k <= |job.ops|
    ensures forall o :: o in FirstPass(job, k).ops ==> o.id.Some?
  {
    if k > 0 {
      hide Emit, DistinctIds;
      NoViews(job, k - 1);
      FirstStep(job, k);
      NoViewEmitted(job, FirstPass(job, k - 1), k - 1);
    }
  }

  lemma NoViewEmitted(job: Job, s: Pass, k: nat)
    requires WellGrouped(job) && DistinctIds(job.ops) && k < |job.ops|
    requires forall o :: o in s.ops ==> o.id.Some?
    ensures forall o :: o in Emit(job, s, job.ops[k]).ops ==> o.id.Some?
  {
    hide FusedOp, GroupFor, ById, ExternalDeps;
    assert job.ops[k] in job.ops;
  }

  // ---------------------------------------------------------------- who makes and reads what

  ghost predicate SameOp(job: Job, x: int, y: int)
    requires WellGrouped(job)
  {
    x in ById(job.ops) && y in ById(job.ops) && HeadOf(job.groups, x) == HeadOf(job.groups, y)
  }

  lemma {:induction false} InOps(ops: seq<Op>, o: Op)
    requires DistinctIds(ops)
    ensures o in ops <==> o.id.Some? && o.id.value in ById(ops) && ById(ops)[o.id.value] == o
  {
    if o in ops {
      var i :| 0 <= i < |ops| && ops[i] == o;
      ByIdAt(ops, i);
    }
    if o.id.Some? && o.id.value in ById(ops) && ById(ops)[o.id.value] == o {
      ByIdHas(ops, o.id.value);
    }
  }

  lemma KeyOf(ops: seq<Op>, x: int)
    requires x in ById(ops)
    ensures ById(ops)[x].id == Some(x) && ById(ops)[x] in ops
  {
    ByIdHas(ops, x);
  }

  ghost predicate SomeMakes(byId: map<int, Op>, g: seq<int>, t: Name)
    requires Known(g, byId)
  {
    exists i :: 0 <= i < |g| && t in byId[g[i]].outputs
  }

  ghost predicate SomeReads(byId: map<int, Op>, g: seq<int>, t: Name)
    requires Known(g, byId)
  {
    exists i :: 0 <= i < |g| && t in byId[g[i]].inputs
  }

  lemma MembersMean(byId: map<int, Op>, g: seq<int>, t: Name)
    requires Known(g, byId)
    ensures MadeBy(Members(byId, g), t) <==> SomeMakes(byId, g, t)
    ensures (exists o :: o in Members(byId, g) && t in o.inputs) <==> SomeReads(byId, g, t)
  {
    var subs := Members(byId, g);
    if o :| o in subs && t in o.outputs {
      var i :| 0 <= i < |subs| && subs[i] == o;
      assert t in byId[g[i]].outputs;
    }
    if o :| o in subs && t in o.inputs {
      var i :| 0 <= i < |subs| && subs[i] == o;
      assert t in byId[g[i]].inputs;
    }
    forall i | 0 <= i < |g|
      ensures subs[i] in subs && subs[i] == byId[g[i]]
    {
    }
  }

  /** The members of a group are what shares its op. */
  lemma SameOpIsMember(job: Job, x: int, g: seq<int>, y: int)
    requires Ready(job) && x in ById(job.ops) && GroupFor(job.groups, x) == Some(g)
    ensures SameOp(job, x, y) <==> y in g
  {
    HeadMeans(job.groups, x);
    HeadMeans(job.groups, y);
    assert Known(g, ById(job.ops));
    if y in g {
      var i := IndexIn(g, y);
    }
  }

  lemma SameOpAlone(job: Job, x: int, y: int)
    requires Ready(job) && x in ById(job.ops) && GroupFor(job.groups, x).None?
    ensures SameOp(job, x, y) <==> y == x
  {
    HeadMeans(job.groups, x);
    HeadMeans(job.groups, y);
  }

  /** An output of a new op is an output of one of the ops it stands for. */
  lemma MakerOf(job: Job, x: int, n: Op, t: Name) returns (y: int)
    requires Fusible(job) && WellGrouped(job) && Rewrite(job).Ok? && x in ById(job.ops) && BecomesOp(job, x, n) && t in n.outputs
    ensures SameOp(job, x, y) && t in ById(job.ops)[y].outputs
  {
    FusibleIsReady(job);
    hide Fusible, ById, FusedOp, Members, HeadOf;
    if GroupFor(job.groups, x).None? {
      var n2 := BecomesAlone(job, x);
      SameOpAlone(job, x, x);
      y := x;
    } else {
      var g := GroupFor(job.groups, x).value;
      var n2 := BecomesFused(job, x, g);
      BoundaryIsExact(job, g, Members(ById(job.ops), g), t);
      MembersMean(ById(job.ops), g, t);
      var i :| 0 <= i < |g| && t in ById(job.ops)[g[i]].outputs;
      y := g[i];
      SameOpIsMember(job, x, g, y);
    }
  }

  /** An input of a new op is read by one of the ops it stands for, and made by none of them when
      they are a group. */
  lemma ReaderOf(job: Job, x: int, n: Op, t: Name) returns (y: int)
    requires Fusible(job) && WellGrouped(job) && Rewrite(job).Ok? && x in ById(job.ops) && BecomesOp(job, x, n) && t in n.inputs
    ensures SameOp(job, x, y) && t in ById(job.ops)[y].inputs
    ensures GroupFor(job.groups, x).Some? ==> forall z :: SameOp(job, x, z) ==> t !in ById(job.ops)[z].outputs
  {
    FusibleIsReady(job);
    hide Fusible, ById, FusedOp, Members, HeadOf;
    if GroupFor(job.groups, x).None? {
      var n2 := BecomesAlone(job, x);
      SameOpAlone(job, x, x);
      y := x;
    } else {
      var g := GroupFor(job.groups, x).value;
      var n2 := BecomesFused(job, x, g);
      BoundaryIsExact(job, g, Members(ById(job.ops), g), t);
      MembersMean(ById(job.ops), g, t);
      var i :| 0 <= i < |g| && t in ById(job.ops)[g[i]].inputs;
      y := g[i];
      SameOpIsMember(job, x, g, y);
      forall z | SameOp(job, x, z)
        ensures t !in ById(job.ops)[z].outputs
      {
        SameOpIsMember(job, x, g, z);
        var j := IndexIn(g, z);
        assert !SomeMakes(ById(job.ops), g, t);
      }
    }
  }

  // ---------------------------------------------------------------- the result is a data-flow graph

  lemma SameOpBecomesSame(job: Job, x: int, y: int, n: Op)
    requires Fusible(job) && WellGrouped(job) && Rewrite(job).Ok? && SameOp(job, x, y) && BecomesOp(job, x, n)
    ensures BecomesOp(job, y, n) && Finished(job).remap[x] == Finished(job).remap[y]
  {
    FusibleIsReady(job);
    RemapKeys(job);
  }

  lemma ReadsDepend(job: Job, x: int, n: Op, z: int, p: Op, t: Name)
    requires Fusible(job) && WellGrouped(job) && Rewrite(job).Ok?
    requires x in ById(job.ops) && z in ById(job.ops) && BecomesOp(job, x, n) && BecomesOp(job, z, p)
    requires t in n.inputs && t in p.outputs
    ensures Finished(job).remap[z] in n.deps
  {
    FusibleIsReady(job);
    RemapKeys(job);
    var m, byId := Finished(job).remap, ById(job.ops);
    var y := ReaderOf(job, x, n, t);
    var q := MakerOf(job, z, p, t);
    KeyOf(job.ops, y);
    KeyOf(job.ops, q);
    assert q in byId[y].deps;
    SameOpBecomesSame(job, z, q, p);
    assert q in m && m[q] == m[z];
    if GroupFor(job.groups, x).None? {
      SameOpAlone(job, x, y);
      DepsOfAlone(job, x, m[z]);
      assert DependsOut(job, x, q);
    } else {
      var g := GroupFor(job.groups, x).value;
      SameOpIsMember(job, x, g, y);
      SameOpIsMember(job, x, g, q);
      var i := IndexIn(g, y);
      assert LeavesAt(byId, g, q);
      DepsOfFused(job, x, m[z]);
      assert DependsOut(job, x, q);
    }
    assert MapsTo(job, m, x, m[z]);
    InAfter(job, x, n, m[z]);
  }

  lemma InAfter(job: Job, x: int, n: Op, v: int)
    requires WellGrouped(job) && Rewrite(job).Ok? && BecomesOp(job, x, n)
    requires Finished(job).remap[x] in After(job) && v in After(job)[Finished(job).remap[x]]
    ensures v in n.deps
  {
  }

  /** Inside a group, makers come before readers and nothing is made twice. */
  lemma GroupFlows(job: Job, g: seq<int>)
    requires Fusible(job) && g in job.groups
    ensures Known(g, ById(job.ops))
    ensures var subs := Members(ById(job.ops), g); Flows(subs) && MadeOnce(subs) && AllContained(subs)
  {
    FusibleIsReady(job);
    hide Fusible, Valid, ById, SelfContained, InTopologicalOrder;
    var byId := ById(job.ops);
    var subs := Members(byId, g);
    forall i | 0 <= i < |g|
      ensures subs[i].id == Some(g[i]) && subs[i] in job.ops && subs[i] == byId[g[i]]
    {
      KeyOf(job.ops, g[i]);
    }
    FusibleParts(job);
    forall i, j, t | 0 <= i < |subs| && 0 <= j < |subs| && t in subs[i].inputs && t in subs[j].outputs
      ensures j < i
    {
      assert g[j] in subs[i].deps;
      OrderInGroup(g, byId, i, j);
    }
    forall i, j, t | 0 <= i < |subs| && 0 <= j < |subs| && t in subs[i].outputs && t in subs[j].outputs
      ensures i == j
    {
      assert subs[i] == subs[j];
      assert g[i] == g[j];
    }
    forall o | o in subs
      ensures SelfContained(o)
    {
      var i :| 0 <= i < |subs| && subs[i] == o;
    }
  }

  lemma FusibleParts(job: Job)
    requires Fusible(job)
    ensures DistinctIds(job.ops) && FlowInDeps(job.ops) && SingleMaker(job.ops) && AllContained(job.ops)
  {
  }

  lemma OrderInGroup(g: seq<int>, byId: map<int, Op>, i: nat, j: nat)
    requires Known(g, byId) && Distinct(g) && InTopologicalOrder(g, byId) && i < |g| && j < |g| && g[j] in byId[g[i]].deps
    ensures j < i
  {
    assert MemberDep(g, byId, i, g[j]);
    assert g[j] in g[..i];
    var k :| 0 <= k < i && g[..i][k] == g[j];
    assert g[k] == g[j];
  }

  lemma {:induction false} StagesInOrder(subs: seq<Op>, i: nat, known: iset<Name>)
    requires i <= |subs| && Flows(subs) && AllContained(subs)
    requires forall o, t :: o in subs && t in o.inputs && !MadeBy(subs, t) ==> t in known
    requires forall j, t :: 0 <= j < i && t in subs[j].outputs ==> t in known
    ensures StagesContained(subs[i..], known)
    decreases |subs| - i
  {
    hide SelfContained;
    if i < |subs| {
      var o := subs[i];
      assert o in subs;
      assert subs[i..][0] == o && subs[i..][1..] == subs[i + 1..];
      forall t | t in o.inputs
        ensures t in known
      {
        if MadeBy(subs, t) {
          var p :| p in subs && t in p.outputs;
          var j :| 0 <= j < |subs| && subs[j] == p;
        }
      }
      StagesInOrder(subs, i + 1, known + iset t | t in o.outputs);
    }
  }

  lemma FusedIsContained(job: Job, g: seq<int>, n: Op)
    requires Fusible(job) && g in job.groups && WellGrouped(job)
    requires var f := FusedOp(job, g, Members(ById(job.ops), g)); n.subOps == f.subOps && n.inputs == f.inputs && n.outputs == f.outputs
    ensures SelfContained(n)
  {
    var subs := Members(ById(job.ops), g);
    GroupFlows(job, g);
    hide Fusible, ById, FusedOp, Members, Flows, MadeOnce, AllContained;
    FusedParts(job, g, subs);
    forall t
      ensures t in n.inputs <==> (exists o :: o in subs && t in o.inputs) && !MadeBy(subs, t)
      ensures t in n.outputs ==> MadeBy(subs, t)
    {
      BoundaryIsExact(job, g, subs, t);
    }
    StagesInOrder(subs, 0, iset t | t in n.inputs);
    assert subs[0..] == subs;
  }

  lemma FusedParts(job: Job, g: seq<int>, subs: seq<Op>)
    requires g != []
    ensures FusedOp(job, g, subs).subOps == subs
  {
  }

  lemma SameContainment(o: Op, n: Op)
    requires SelfContained(o) && n.subOps == o.subOps && n.inputs == o.inputs && n.outputs == o.outputs
    ensures SelfContained(n)
  {
  }

  lemma NewOpContained(job: Job, n: Op)
    requires Fusible(job) && WellGrouped(job) && Rewrite(job).Ok? && n in Result(job)
    ensures SelfContained(n)
  {
    FusibleIsReady(job);
    FusibleParts(job);
    var x := ResultCovered(job, n);
    hide Fusible, ById, FusedOp, Members, SelfContained, Rewrite;
    if GroupFor(job.groups, x).None? {
      var n2 := BecomesAlone(job, x);
      KeyOf(job.ops, x);
      SameContainment(ById(job.ops)[x], n);
    } else {
      var g := GroupFor(job.groups, x).value;
      var n2 := BecomesFused(job, x, g);
      FusedIsContained(job, g, n);
    }
  }

  /** Ids, producers and data flow of the result are as orderly as those of the input. */
  lemma ResultIsDataflow(job: Job)
    requires Fusible(job) && WellGrouped(job) && Rewrite(job).Ok?
    ensures Dataflow(Result(job))
  {
    FusibleIsReady(job);
    FusibleParts(job);
    hide Fusible, ById, Rewrite, SelfContained, Finished;
    var ops := Result(job);
    ResultIds(job);
    forall n | n in ops
      ensures SelfContained(n)
    {
      NewOpContained(job, n);
    }
    forall n, p, t | n in ops && p in ops && t in n.inputs && t in p.outputs
      ensures p.id.Some? && p.id.value in n.deps
    {
      var x := ResultCovered(job, n);
      var z := ResultCovered(job, p);
      KeyOf(ops, Finished(job).remap[z]);
      ReadsDepend(job, x, n, z, p, t);
    }
    forall n, p, t | n in ops && p in ops && t in n.outputs && t in p.outputs
      ensures n == p
    {
      var x := ResultCovered(job, n);
      var z := ResultCovered(job, p);
      var y := MakerOf(job, x, n, t);
      var q := MakerOf(job, z, p, t);
      OneMaker(job, y, q, t);
      SameOpBecomesSame(job, x, y, n);
      SameOpBecomesSame(job, z, q, p);
    }
  }

  lemma OneMaker(job: Job, y: int, q: int, t: Name)
    requires SingleMaker(job.ops) && y in ById(job.ops) && q in ById(job.ops)
    requires t in ById(job.ops)[y].outputs && t in ById(job.ops)[q].outputs
    ensures y == q
  {
    KeyOf(job.ops, y);
    KeyOf(job.ops, q);
  }

  lemma ResultIds(job: Job)
    requires Fusible(job) && WellGrouped(job) && Rewrite(job).Ok?
    ensures DistinctIds(Result(job))
  {
    FusibleIsReady(job);
    RenumberingIsLossless(job);
    RewriteIsSecondPass(job);
    NoViews(job, |job.ops|);
    var s, w := Finished(job), Rewrite(job).value;
    hide FirstPass, ById, SecondPass, EmittedFor, GroupFor, ExternalDeps, Rewire, Fusible, Ready;
    CountedIsUnique(w.ops);
    forall j | 0 <= j < |w.ops|
      ensures w.ops[j].id.Some?
    {
      RewireId(s, s.ops[j], w.ops[j]);
    }
  }

  // ---------------------------------------------------------------- putting the internal tensors back

  ghost predicate MadeInGroup(job: Job, x: int, g: seq<int>, t: Name) {
    x in ById(job.ops) && GroupFor(job.groups, x) == Some(g) && t in ById(job.ops)[x].outputs
  }

  ghost predicate Grouped(job: Job, t: Name) {
    exists x, g :: MadeInGroup(job, x, g, t)
  }

  /** Tensors that live inside a fused op only. */
  ghost predicate Hidden(job: Job, t: Name) {
    exists x, g :: MadeInGroup(job, x, g, t) && !Escapes(job, g, t)
  }

  ghost function GroupRun(k: Kernels, job: Job, e: Env, t: Name): Value
    requires WellGrouped(job) && Grouped(job, t)
  {
    var x, g :| MadeInGroup(job, x, g, t);
    Read(Run(k, Members(ById(job.ops), g), e), t)
  }

  /** An environment of the fused graph, with what the stages of each fused op computed added. */
  ghost function Unfold(k: Kernels, job: Job, e: Env): Env
    requires WellGrouped(job)
  {
    e + map t | t in AllOutputs(job.ops) && Grouped(job, t) :: GroupRun(k, job, e, t)
  }

  lemma UnfoldGrouped(k: Kernels, job: Job, e: Env, x: int, g: seq<int>, t: Name)
    requires Fusible(job) && WellGrouped(job) && MadeInGroup(job, x, g, t)
    ensures Known(g, ById(job.ops)) && Read(Unfold(k, job, e), t) == Read(Run(k, Members(ById(job.ops), g), e), t)
  {
    FusibleParts(job);
    KeyOf(job.ops, x);
    InAllOutputs(job.ops, t);
    assert g in job.groups;
    hide Fusible, ById, Run, Members, AllOutputs;
    assert t in AllOutputs(job.ops) && Grouped(job, t);
    var y, h :| MadeInGroup(job, y, h, t) && GroupRun(k, job, e, t) == Read(Run(k, Members(ById(job.ops), h), e), t);
    OneMaker(job, x, y, t);
  }

  lemma UnfoldOther(k: Kernels, job: Job, e: Env, t: Name)
    requires WellGrouped(job) && !Grouped(job, t)
    ensures Read(Unfold(k, job, e), t) == Read(e, t)
  {
    hide GroupRun, Grouped, AllOutputs;
  }

  lemma NotHidden(job: Job, x: int, g: seq<int>, t: Name)
    requires MadeInGroup(job, x, g, t) && !Hidden(job, t)
    ensures Escapes(job, g, t)
  {
  }

  /** Unfolding changes hidden tensors only. */
  lemma VisibleSame(k: Kernels, job: Job, given: Env, e: Env, t: Name)
    requires Fusible(job) && WellGrouped(job) && Rewrite(job).Ok? && Solves(k, Result(job), given, e) && !Hidden(job, t)
    ensures Read(Unfold(k, job, e), t) == Read(e, t)
  {
    hide Unfold, Hidden, Escapes, ById, Rewrite, Exec, FusedOp, Members, Fusible, Run;
    if Grouped(job, t) {
      var x, g :| MadeInGroup(job, x, g, t);
      FusibleIsReady(job);
      UnfoldGrouped(k, job, e, x, g, t);
      NotHidden(job, x, g, t);
      var subs := Members(ById(job.ops), g);
      var n := BecomesFused(job, x, g);
      var i := IndexIn(g, x);
      assert t in ById(job.ops)[g[i]].outputs;
      MembersMean(ById(job.ops), g, t);
      BoundaryIsExact(job, g, subs, t);
      FusedParts(job, g, subs);
      assert Holds(k, n, e);
      ExecFused(k, n, e, t);
    } else {
      UnfoldOther(k, job, e, t);
    }
  }

  /** Whoever reads a hidden tensor is in the group that makes it. */
  lemma HiddenReader(job: Job, x: int, y: int, g: seq<int>, t: Name)
    requires MadeInGroup(job, y, g, t) && !Escapes(job, g, t)
    requires x in ById(job.ops) && t in ById(job.ops)[x].inputs
    ensures x in g && g in job.groups
  {
    KeyOf(job.ops, x);
  }

  lemma AloneHolds(k: Kernels, job: Job, given: Env, e: Env, x: int)
    requires Fusible(job) && WellGrouped(job) && Rewrite(job).Ok? && Solves(k, Result(job), given, e)
    requires x in ById(job.ops) && GroupFor(job.groups, x).None?
    ensures Holds(k, ById(job.ops)[x], Unfold(k, job, e))
  {
    var o := ById(job.ops)[x];
    FusibleIsReady(job);
    FusibleParts(job);
    KeyOf(job.ops, x);
    var n := BecomesAlone(job, x);
    hide Unfold, Escapes, ById, Rewrite, Exec, Fusible, SelfContained;
    assert Holds(k, n, e) && SelfContained(o);
    SameExec(k, o, n, e);
    assert Holds(k, o, e);
    forall t | t in o.inputs || t in o.outputs
      ensures Read(e, t) == Read(Unfold(k, job, e), t)
    {
      AloneVisible(job, x, t);
      VisibleSame(k, job, given, e, t);
    }
    HoldsAgrees(k, o, e, Unfold(k, job, e));
  }

  lemma AloneVisible(job: Job, x: int, t: Name)
    requires Fusible(job) && WellGrouped(job) && x in ById(job.ops) && GroupFor(job.groups, x).None?
    requires t in ById(job.ops)[x].inputs || t in ById(job.ops)[x].outputs
    ensures !Hidden(job, t)
  {
    FusibleParts(job);
    hide ById, Escapes, Fusible;
    if y, g :| MadeInGroup(job, y, g, t) && !Escapes(job, g, t) {
      if t in ById(job.ops)[x].inputs {
        HiddenReader(job, x, y, g, t);
      } else {
        OneMaker(job, x, y, t);
      }
    }
  }

  lemma MemberHolds(k: Kernels, job: Job, given: Env, e: Env, x: int, g: seq<int>)
    requires Fusible(job) && WellGrouped(job) && Rewrite(job).Ok? && Solves(k, Result(job), given, e)
    requires x in ById(job.ops) && GroupFor(job.groups, x) == Some(g)
    ensures Holds(k, ById(job.ops)[x], Unfold(k, job, e))
  {
    var o := ById(job.ops)[x];
    assert g in job.groups && x in g;
    FusibleIsReady(job);
    GroupFlows(job, g);
    var subs := Members(ById(job.ops), g);
    var f := Run(k, subs, e);
    var i := IndexIn(g, x);
    assert subs[i] == o && o in subs;
    RunSolves(k, subs, e);
    hide Unfold, ById, Rewrite, Exec, Fusible, SelfContained, Members, Run, Flows, MadeOnce;
    forall t | t in o.inputs || t in o.outputs
      ensures Read(f, t) == Read(Unfold(k, job, e), t)
    {
      MemberSees(k, job, given, e, x, g, t);
    }
    assert Holds(k, o, f) && SelfContained(o);
    HoldsAgrees(k, o, f, Unfold(k, job, e));
  }

  lemma MemberSees(k: Kernels, job: Job, given: Env, e: Env, x: int, g: seq<int>, t: Name)
    requires Fusible(job) && WellGrouped(job) && Rewrite(job).Ok? && Solves(k, Result(job), given, e)
    requires x in ById(job.ops) && GroupFor(job.groups, x) == Some(g)
    requires t in ById(job.ops)[x].inputs || t in ById(job.ops)[x].outputs
    ensures Known(g, ById(job.ops))
    ensures Read(Run(k, Members(ById(job.ops), g), e), t) == Read(Unfold(k, job, e), t)
  {
    FusibleIsReady(job);
    assert g in job.groups;
    var byId := ById(job.ops);
    var subs := Members(byId, g);
    hide Unfold, ById, Rewrite, Exec, Fusible, Members, Run, Escapes;
    MembersMean(byId, g, t);
    if SomeMakes(byId, g, t) {
      var i :| 0 <= i < |g| && t in byId[g[i]].outputs;
      HeadMeans(job.groups, g[i]);
      assert MadeInGroup(job, g[i], g, t);
      UnfoldGrouped(k, job, e, g[i], g, t);
    } else {
      assert !MadeBy(subs, t);
      RunFrame(k, subs, e, t);
      MemberVisible(job, x, g, t);
      VisibleSame(k, job, given, e, t);
    }
  }

  lemma MemberVisible(job: Job, x: int, g: seq<int>, t: Name)
    requires Fusible(job) && WellGrouped(job) && x in ById(job.ops) && GroupFor(job.groups, x) == Some(g)
    requires Known(g, ById(job.ops)) && !SomeMakes(ById(job.ops), g, t)
    requires t in ById(job.ops)[x].inputs || t in ById(job.ops)[x].outputs
    ensures !Hidden(job, t)
  {
    forall y | y in g
      ensures y in ById(job.ops) && t !in ById(job.ops)[y].outputs
    {
      var i := IndexIn(g, y);
    }
    assert x in g;
    hide ById, Escapes;
    if y, h :| MadeInGroup(job, y, h, t) && !Escapes(job, h, t) {
      HiddenReader(job, x, y, h, t);
      GroupIsUnique(job.groups, g, h, x);
    }
  }

  /** The unfolded environment solves the original equations. */
  lemma UnfoldSolves(k: Kernels, job: Job, given: Env, e: Env)
    requires Fusible(job) && WellGrouped(job) && Rewrite(job).Ok? && Solves(k, Result(job), given, e)
    ensures Solves(k, job.ops, given, Unfold(k, job, e))
  {
    FusibleIsReady(job);
    FusibleParts(job);
    hide Unfold, ById, Rewrite, Exec, Fusible, Holds, Escapes, SelfContained;
    forall o | o in job.ops
      ensures Holds(k, o, Unfold(k, job, e))
    {
      InOps(job.ops, o);
      var x := o.id.value;
      if GroupFor(job.groups, x).None? {
        AloneHolds(k, job, given, e, x);
      } else {
        MemberHolds(k, job, given, e, x, GroupFor(job.groups, x).value);
      }
    }
    forall t | !MadeBy(job.ops, t)
      ensures Read(Unfold(k, job, e), t) == Read(given, t)
    {
      NotMade(job, t);
      UnfoldOther(k, job, e, t);
    }
  }

  lemma NotMade(job: Job, t: Name)
    requires Fusible(job) && WellGrouped(job) && Rewrite(job).Ok? && !MadeBy(job.ops, t)
    ensures !Grouped(job, t) && !MadeBy(Result(job), t)
  {
    hide ById, Rewrite, Fusible;
    if x, g :| MadeInGroup(job, x, g, t) {
      KeyOf(job.ops, x);
    }
    if n :| n in Result(job) && t in n.outputs {
      var x := ResultCovered(job, n);
      var y := MakerOf(job, x, n, t);
      KeyOf(job.ops, y);
    }
  }

  /** Under any order the dependencies allow, before and after, every tensor that is not hidden in
      a fused op has the same value. */
  lemma FusionPreservesMeaning(k: Kernels, job: Job, given: Env, before: seq<Op>, after: seq<Op>, t: Name)
    requires Fusible(job) && WellGrouped(job) && Rewrite(job).Ok?
    requires Schedule(job.ops, before) && Schedule(Result(job), after)
    requires !Hidden(job, t)
    ensures Read(Run(k, before, given), t) == Read(Run(k, after, given), t)
  {
    hide ById, Rewrite, Exec, Fusible, Hidden, SelfContained, Run, Unfold, Holds;
    FusibleParts(job);
    ResultIsDataflow(job);
    ScheduleFlows(job.ops, before);
    ScheduleFlows(Result(job), after);
    var e1, e2 := Run(k, before, given), Run(k, after, given);
    RunSolves(k, before, given);
    RunSolves(k, after, given);
    SolvesMoves(k, after, Result(job), given, e2);
    UnfoldSolves(k, job, given, e2);
    SolvesMoves(k, job.ops, before, given, Unfold(k, job, e2));
    SolutionIsUnique(k, before, given, e1, Unfold(k, job, e2), t);
    VisibleSame(k, job, given, e2, t);
  }

  /** Hidden tensors are exactly those listed as internal to a fused op; no op of the result reads
      or writes one, and no model output is hidden. */
  lemma HiddenStaysInside(job: Job, t: Name)
    requires Fusible(job) && WellGrouped(job) && Rewrite(job).Ok?
    ensures Hidden(job, t) <==> exists g :: g in job.groups && t in FusedOp(job, g, Members(ById(job.ops), g)).internal
    ensures Hidden(job, t) ==> t !in job.outputs && forall n :: n in Result(job) ==> t !in n.inputs && t !in n.outputs
  {
    FusibleIsReady(job);
    FusibleParts(job);
    var byId := ById(job.ops);
    hide ById, Rewrite, Fusible, FusedOp, Members, Valid, SelfContained, InTopologicalOrder;
    forall g | g in job.groups
      ensures t in FusedOp(job, g, Members(byId, g)).internal <==> SomeMakes(byId, g, t) && !Escapes(job, g, t)
    {
      BoundaryIsExact(job, g, Members(byId, g), t);
      MembersMean(byId, g, t);
    }
    forall g | g in job.groups
      ensures SomeMakes(byId, g, t) <==> exists x :: MadeInGroup(job, x, g, t)
    {
      if SomeMakes(byId, g, t) {
        var i :| 0 <= i < |g| && t in byId[g[i]].outputs;
        HeadMeans(job.groups, g[i]);
        assert MadeInGroup(job, g[i], g, t);
      }
      if x :| MadeInGroup(job, x, g, t) {
        var i := IndexIn(g, x);
        assert t in byId[g[i]].outputs;
      }
    }
    if y, g :| MadeInGroup(job, y, g, t) && !Escapes(job, g, t) {
      assert g in job.groups;
      forall n | n in Result(job)
        ensures t !in n.inputs && t !in n.outputs
      {
        HiddenUntouched(job, y, g, t, n);
      }
    }
  }

  lemma HiddenUntouched(job: Job, y: int, g: seq<int>, t: Name, n: Op)
    requires Fusible(job) && WellGrouped(job) && Rewrite(job).Ok? && n in Result(job)
    requires MadeInGroup(job, y, g, t) && !Escapes(job, g, t)
    ensures t !in n.inputs && t !in n.outputs
  {
    FusibleIsReady(job);
    FusibleParts(job);
    var x := ResultCovered(job, n);
    hide ById, Rewrite, Fusible, Members, Valid, SelfContained, Escapes;
    SameOpIsMember(job, y, g, y);
    if t in n.inputs {
      var z := ReaderOf(job, x, n, t);
      HiddenReader(job, z, y, g, t);
      SameOpIsMember(job, y, g, z);
      if GroupFor(job.groups, x).None? { SameOpAlone(job, x, z); }
    } else if t in n.outputs {
      var z := MakerOf(job, x, n, t);
      OneMaker(job, y, z, t);
      assert SameOp(job, y, x);
      SameOpIsMember(job, y, g, x);
      HeadMeans(job.groups, x);
      var n2 := BecomesFused(job, x, g);
      BoundaryIsExact(job, g, Members(ById(job.ops), g), t);
    }
  }
}
