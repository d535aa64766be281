/** The fusion rewriter (pipeline/apply_fusion_hint.py): the rewrite itself.

    Accepted groups collapse into fused ops placed where the least member stood, ids are reassigned
    from 0 and dependencies rewired. The renumbering is shown to lose nothing, and the dependency
    graph of the result to be the contraction of the original one, relabelled. */
module FusionRewrite {
  import opened Ir
  import opened Fusion
  import opened Names
  import opened Seqs

  // ---------------------------------------------------------------- the fused op

  /** The first occurrences, in order. */
  function OrderedUnique<T(==)>(xs: seq<T>): seq<T> {
    if xs == [] then []
    else
      var r, x := OrderedUnique(xs[..|xs| - 1]), xs[|xs| - 1];
      if x in r then r else r + [x]
  }

  lemma {:induction false} UniqueKeepsMembers<T>(xs: seq<T>)
    ensures forall x :: x in OrderedUnique(xs) <==> x in xs
    ensures forall i, j :: 0 <= i < j < |OrderedUnique(xs)| ==> OrderedUnique(xs)[i] != OrderedUnique(xs)[j]
  {
    if xs != [] {
      UniqueKeepsMembers(xs[..|xs| - 1]);
      assert xs == xs[..|xs| - 1] + [xs[|xs| - 1]];
    }
  }

  /** What is left are the first occurrences, in the order they are met. */
  lemma {:induction false} FirstSeenOrder<T>(xs: seq<T>) returns (at: seq<nat>)
    ensures |at| == |OrderedUnique(xs)| && forall j, k :: 0 <= j < k < |at| ==> at[j] < at[k]
    ensures forall k :: 0 <= k < |at| ==> at[k] < |xs| && xs[at[k]] == OrderedUnique(xs)[k] && xs[at[k]] !in xs[..at[k]]
  {
    if xs == [] {
      at := [];
    } else {
      var n := |xs| - 1;
      var init := xs[..n];
      at := FirstSeenOrder(init);
      UniqueKeepsMembers(init);
      assert forall k :: 0 <= k < |at| ==> init[..at[k]] == xs[..at[k]];
      if xs[n] !in init { at := at + [n]; }
    }
  }

  method Unique<T(==)>(xs: seq<T>) returns (out: seq<T>)
    ensures out == OrderedUnique(xs)
  {
    out := [];
    for i := 0 to |xs|
      invariant out == OrderedUnique(xs[..i])
    {
      assert xs[..i + 1][..i] == xs[..i];
      if xs[i] !in out { out := out + [xs[i]]; }
    }
    assert xs[..|xs|] == xs;
  }

  function AllInputs(ops: seq<Op>): seq<Name> {
    if ops == [] then [] else AllInputs(ops[..|ops| - 1]) + ops[|ops| - 1].inputs
  }

  function AllOutputs(ops: seq<Op>): seq<Name> {
    if ops == [] then [] else AllOutputs(ops[..|ops| - 1]) + ops[|ops| - 1].outputs
  }

  function AllDeps(ops: seq<Op>): seq<int> {
    if ops == [] then [] else AllDeps(ops[..|ops| - 1]) + ops[|ops| - 1].deps
  }

  predicate ReadOutside(ops: seq<Op>, group: seq<int>, t: Name) {
    exists o :: o in ops && o.id.Some? && o.id.value !in group && t in o.inputs
  }

  function Kinds(ops: seq<Op>): (r: seq<string>)
    ensures |r| == |ops|
  {
    seq(|ops|, i requires 0 <= i < |ops| => ops[i].body.kind)
  }

  function Joined(parts: seq<string>): string {
    if parts == [] then "" else if |parts| == 1 then parts[0] else Joined(parts[..|parts| - 1]) + "__" + parts[|parts| - 1]
  }

  function FusedKind(kinds: seq<string>): string {
    if kinds == ["linear_s8", "elu_s8"] then "linear_s8_elu_s8"
    else if kinds == ["batchnorm2d_s8", "silu_s8"] then "batchnorm2d_silu_s8"
    else if kinds == ["conv2d_s8", "batchnorm2d_s8"] then "conv2d_batchnorm2d_s8"
    else "__fused__" + Joined(kinds)
  }

  function MergedTarget(ops: seq<Op>): string {
    if ops != [] && forall o :: o in ops ==> TargetOf(o) == TargetOf(ops[0]) then TargetOf(ops[0]) else "any"
  }

  /** What the rewriter is asked to do. */
  datatype Job = Job(network: string, ops: seq<Op>, groups: seq<seq<int>>, outputs: set<Name>)

  function Members(byId: map<int, Op>, group: seq<int>): (r: seq<Op>)
    requires Known(group, byId)
    ensures |r| == |group| && forall i :: 0 <= i < |group| ==> r[i] == byId[group[i]]
  {
    seq(|group|, i requires 0 <= i < |group| => byId[group[i]])
  }

  predicate Escapes(job: Job, group: seq<int>, t: Name) {
    ReadOutside(job.ops, group, t) || t in job.outputs
  }

  function FusedInputs(subs: seq<Op>): seq<Name> {
    Filter(OrderedUnique(AllInputs(subs)), t => t !in AllOutputs(subs))
  }

  function FusedOutputs(job: Job, group: seq<int>, subs: seq<Op>): seq<Name> {
    Filter(OrderedUnique(AllOutputs(subs)), t => Escapes(job, group, t))
  }

  function FusedInternal(job: Job, group: seq<int>, subs: seq<Op>): seq<Name> {
    Filter(OrderedUnique(AllOutputs(subs)), t => !Escapes(job, group, t))
  }

  function ExternalDeps(group: seq<int>, subs: seq<Op>): seq<int> {
    OrderedUnique(Filter(AllDeps(subs), d => d !in group))
  }

  /** The op a group becomes, without id and dependencies. */
  function FusedOp(job: Job, group: seq<int>, subs: seq<Op>): Op
    requires group != []
  {
    var internal := FusedInternal(job, group, subs);
    Op(job.network + ".fused_" + Decimal(group[0]) + "_" + Decimal(group[|group| - 1]),
       Body(FusedKind(Kinds(subs)), map[], map[], map[]),
       FusedInputs(subs), FusedOutputs(job, group, subs), internal, subs,
       None, [], Some(MergedTarget(subs)), Fused(group, internal), map[])
  }

  lemma {:induction false} InAllOutputs(ops: seq<Op>, t: Name)
    ensures t in AllOutputs(ops) <==> MadeBy(ops, t)
  {
    if ops != [] {
      var init, o := ops[..|ops| - 1], ops[|ops| - 1];
      assert ops == init + [o];
      InAllOutputs(init, t);
      if MadeBy(init, t) {
        var p :| p in init && t in p.outputs;
        assert p in ops;
      }
      if MadeBy(ops, t) {
        var p :| p in ops && t in p.outputs;
        assert p in init || p == o;
      }
      assert o in ops;
    }
  }

  lemma {:induction false} InAllInputs(ops: seq<Op>, t: Name)
    ensures t in AllInputs(ops) <==> exists o :: o in ops && t in o.inputs
  {
    if ops != [] {
      var init, o := ops[..|ops| - 1], ops[|ops| - 1];
      assert ops == init + [o];
      InAllInputs(init, t);
      assert o in ops && forall p :: p in ops <==> p in init || p == o;
    }
  }

  lemma {:induction false} InAllDeps(ops: seq<Op>, d: int)
    ensures d in AllDeps(ops) <==> exists o :: o in ops && d in o.deps
  {
    if ops != [] {
      var init, o := ops[..|ops| - 1], ops[|ops| - 1];
      assert ops == init + [o];
      InAllDeps(init, d);
      assert o in ops && forall p :: p in ops <==> p in init || p == o;
    }
  }

  /** The boundary is exact: inputs are what members read and no member makes, outputs what members
      make and an op outside or the model needs, internal tensors everything else they make. */
  lemma BoundaryIsExact(job: Job, group: seq<int>, subs: seq<Op>, t: Name)
    requires group != []
    ensures var f := FusedOp(job, group, subs);
      && (t in f.inputs <==> (exists o :: o in subs && t in o.inputs) && !MadeBy(subs, t))
      && (t in f.outputs <==> MadeBy(subs, t) && Escapes(job, group, t))
      && (Escapes(job, group, t) <==> t in job.outputs || exists o :: o in job.ops && o.id.Some? && o.id.value !in group && t in o.inputs)
      && (t in f.internal <==> MadeBy(subs, t) && t !in f.outputs)
  {
    hide OrderedUnique, Filter, AllInputs, AllOutputs, Decimal, FusedKind, MergedTarget;
    UniqueKeepsMembers(AllInputs(subs));
    UniqueKeepsMembers(AllOutputs(subs));
    InAllInputs(subs, t);
    InAllOutputs(subs, t);
  }

  /** A group goes where all its members go, and anywhere if they do not agree. */
  lemma TargetIsCommon(subs: seq<Op>, target: string)
    requires subs != []
    ensures MergedTarget(subs) == target <==>
      if forall o, p :: o in subs && p in subs ==> TargetOf(o) == TargetOf(p) then forall o :: o in subs ==> TargetOf(o) == target
      else target == "any"
  {
    hide TargetOf;
    assert subs[0] in subs;
  }

  /** The kind without its type. */
  function Untyped(kind: string): string
    requires |kind| >= 3
  {
    kind[..|kind| - 3]
  }

  /** A registered pair is named after its two kinds, a linear layer with its type and the others without. */
  lemma PairKinds(a: string, b: string)
    ensures a == "linear_s8" && b == "elu_s8" ==> FusedKind([a, b]) == a + "_" + b
    ensures (a == "batchnorm2d_s8" && b == "silu_s8") || (a == "conv2d_s8" && b == "batchnorm2d_s8") ==>
      |a| >= 3 && FusedKind([a, b]) == Untyped(a) + "_" + b
  {
    if a == "linear_s8" && b == "elu_s8" {
      LinearElu();
    } else if a == "batchnorm2d_s8" && b == "silu_s8" {
      BatchNormSilu();
    } else if a == "conv2d_s8" && b == "batchnorm2d_s8" {
      ConvBatchNorm();
    }
  }

  lemma LinearElu()
    ensures FusedKind(["linear_s8", "elu_s8"]) == "linear_s8" + "_" + "elu_s8"
  {
    hide Joined;
  }

  lemma BatchNormSilu()
    ensures FusedKind(["batchnorm2d_s8", "silu_s8"]) == "batchnorm2d" + "_" + "silu_s8" && Untyped("batchnorm2d_s8") == "batchnorm2d"
    ensures "batchnorm2d_s8" != "linear_s8" && |"batchnorm2d_s8"| >= 3
  {
    assert ["batchnorm2d_s8", "silu_s8"][0][0] == 'b' && ["linear_s8", "elu_s8"][0][0] == 'l';
    hide Joined;
  }

  lemma ConvBatchNorm()
    ensures FusedKind(["conv2d_s8", "batchnorm2d_s8"]) == "conv2d" + "_" + "batchnorm2d_s8" && Untyped("conv2d_s8") == "conv2d"
    ensures "conv2d_s8" != "linear_s8" && "conv2d_s8" != "batchnorm2d_s8" && |"conv2d_s8"| >= 3
  {
    assert ["conv2d_s8", "batchnorm2d_s8"][0][0] == 'c' && ["linear_s8", "elu_s8"][0][0] == 'l' && ["batchnorm2d_s8", "silu_s8"][0][0] == 'b';
    hide Joined;
  }

  predicate IsRegisteredPair(kinds: seq<string>) {
    kinds == ["linear_s8", "elu_s8"] || kinds == ["batchnorm2d_s8", "silu_s8"] || kinds == ["conv2d_s8", "batchnorm2d_s8"]
  }

  /** Pairwise mode splits exactly the groups whose consecutive pairs all get the registered name. */
  lemma PairsAreRegistered(group: seq<int>, byId: map<int, Op>)
    requires Known(group, byId)
    ensures Alternates(group, byId) <==>
      |group| % 2 == 0 && forall i :: 0 <= i < |PairsOf(group)| ==>
        PairsOf(group)[i][0] in byId && PairsOf(group)[i][1] in byId
        && FusedKind([byId[PairsOf(group)[i][0]].body.kind, byId[PairsOf(group)[i][1]].body.kind]) == "linear_s8_elu_s8"
  {
    if |group| % 2 == 0 {
      forall i | 0 <= i < |PairsOf(group)|
        ensures var a, b := PairsOf(group)[i][0], PairsOf(group)[i][1];
          a in byId && b in byId && (IsLinearElu(PairsOf(group)[i], byId) <==> FusedKind([byId[a].body.kind, byId[b].body.kind]) == "linear_s8_elu_s8")
      {
        var a, b := PairsOf(group)[i][0], PairsOf(group)[i][1];
        assert group[2 * i] in group && group[2 * i + 1] in group;
        OnlyLinearElu(byId[a].body.kind, byId[b].body.kind);
      }
    }
  }

  lemma OnlyLinearElu(a: string, b: string)
    ensures FusedKind([a, b]) == "linear_s8_elu_s8" <==> a == "linear_s8" && b == "elu_s8"
  {
    if a == "linear_s8" && b == "elu_s8" {
      LinearElu();
    } else {
      assert [a, b][0] == a && [a, b][1] == b;
      OtherKinds([a, b]);
    }
  }

  lemma OtherKinds(kinds: seq<string>)
    requires kinds != ["linear_s8", "elu_s8"]
    ensures FusedKind(kinds) != "linear_s8_elu_s8"
  {
    hide Joined;
    assert "batchnorm2d_silu_s8"[0] == 'b' && "conv2d_batchnorm2d_s8"[0] == 'c' && "linear_s8_elu_s8"[0] == 'l';
    assert ("__fused__" + Joined(kinds))[0] == '_';
  }

  /** Any other group is named after all its kinds, marked as fused. */
  lemma KindNamesStages(kinds: seq<string>)
    requires !IsRegisteredPair(kinds)
    ensures exists names :: FusedKind(kinds) == "__fused__" + names && SpellsOut(names, kinds)
  {
    Spelled(kinds);
    hide Joined, SpellsOut;
  }

  /** The names one after the other, with two underscores between neighbours. */
  ghost predicate SpellsOut(names: string, kinds: seq<string>)
    decreases |kinds|
  {
    if kinds == [] then names == ""
    else if |kinds| == 1 then names == kinds[0]
    else exists rest :: names == kinds[0] + "__" + rest && SpellsOut(rest, kinds[1..])
  }

  lemma {:induction false} Spelled(kinds: seq<string>)
    ensures SpellsOut(Joined(kinds), kinds)
    decreases |kinds|
  {
    if |kinds| > 1 {
      Spelled(kinds[1..]);
      JoinedFront(kinds);
    }
  }

  lemma {:induction false} JoinedFront(kinds: seq<string>)
    requires |kinds| > 1
    ensures Joined(kinds) == kinds[0] + "__" + Joined(kinds[1..])
  {
    var init, last := kinds[..|kinds| - 1], kinds[|kinds| - 1];
    if |kinds| > 2 {
      JoinedFront(init);
      assert init[1..] == kinds[1..][..|kinds| - 2];
      assert Joined(kinds[1..]) == Joined(init[1..]) + "__" + last;
      assert kinds[0] + "__" + (Joined(init[1..]) + "__" + last) == (kinds[0] + "__" + Joined(init[1..])) + "__" + last;
    } else {
      assert Joined(init) == kinds[0] && Joined(kinds[1..]) == last;
    }
  }

  /** Groups with another first or last member get another name. */
  lemma FusedNamesDiffer(job: Job, g: seq<int>, h: seq<int>, a: seq<Op>, b: seq<Op>)
    requires g != [] && h != [] && FusedOp(job, g, a).name == FusedOp(job, h, b).name
    requires g[0] >= 0 && g[|g| - 1] >= 0 && h[0] >= 0 && h[|h| - 1] >= 0
    ensures g[0] == h[0] && g[|g| - 1] == h[|h| - 1]
  {
    var prefix := job.network + ".fused";
    var x, y := prefix + "_" + Decimal(g[0]), prefix + "_" + Decimal(h[0]);
    var p, q := Decimal(g[|g| - 1]), Decimal(h[|h| - 1]);
    DecimalHasNoUnderscore(g[|g| - 1]);
    DecimalHasNoUnderscore(h[|h| - 1]);
    hide Decimal;
    assert FusedOp(job, g, a).name == x + "_" + p && FusedOp(job, h, b).name == y + "_" + q by { SameName(job, g, a); SameName(job, h, b); }
    MarkInTail(x, p, y, q);
    MarkInTail(y, q, x, p);
    assert Decimal(g[0]) == x[|prefix| + 1..] && Decimal(h[0]) == y[|prefix| + 1..];
    DecimalInjective(g[0], h[0]);
    DecimalInjective(g[|g| - 1], h[|h| - 1]);
  }

  lemma SameName(job: Job, g: seq<int>, a: seq<Op>)
    requires g != []
    ensures FusedOp(job, g, a).name == job.network + ".fused" + "_" + Decimal(g[0]) + "_" + Decimal(g[|g| - 1])
  {
    hide Decimal, FusedKind, MergedTarget, FusedInputs, FusedOutputs, FusedInternal;
    assert job.network + ".fused_" == job.network + ".fused" + "_";
  }

  lemma InExternalDeps(group: seq<int>, subs: seq<Op>, d: int)
    ensures d in ExternalDeps(group, subs) <==> d !in group && exists o :: o in subs && d in o.deps
  {
    var keep := (x: int) => x !in group;
    UniqueKeepsMembers(Filter(AllDeps(subs), keep));
    InAllDeps(subs, d);
  }

  method BuildFusedOp(job: Job, group: seq<int>, subs: seq<Op>) returns (fused: Op)
    requires group != []
    ensures fused == FusedOp(job, group, subs)
  {
    var made: set<Name> := {};
    for i := 0 to |subs|
      invariant forall t :: t in made <==> t in AllOutputs(subs[..i])
    {
      assert subs[..i + 1][..i] == subs[..i];
      made := made + set t | t in subs[i].outputs;
    }
    assert subs[..|subs|] == subs;
    var readOutside: set<Name> := {};
    for i := 0 to |job.ops|
      invariant forall t :: t in readOutside <==> ReadOutside(job.ops[..i], group, t)
    {
      var o := job.ops[i];
      assert forall p :: p in job.ops[..i + 1] <==> p in job.ops[..i] || p == o;
      if o.id.Some? && o.id.value !in group {
        readOutside := readOutside + set t | t in o.inputs;
      }
    }
    assert job.ops[..|job.ops|] == job.ops;
    var taken := AllInputs(subs);
    var produced := AllOutputs(subs);
    taken := Unique(taken);
    produced := Unique(produced);
    var inputs := Filter(taken, t => t !in made);
    var outputs := Filter(produced, t => t in readOutside || t in job.outputs);
    var internal := Filter(produced, t => t !in outputs);
    SameFilter(taken, (t: Name) => t !in made, (t: Name) => t !in AllOutputs(subs));
    SameFilter(produced, (t: Name) => t in readOutside || t in job.outputs, (t: Name) => Escapes(job, group, t));
    SameFilter(produced, (t: Name) => t !in outputs, (t: Name) => !Escapes(job, group, t));
    fused := Op(job.network + ".fused_" + Decimal(group[0]) + "_" + Decimal(group[|group| - 1]),
                Body(FusedKind(Kinds(subs)), map[], map[], map[]),
                inputs, outputs, internal, subs, None, [], Some(MergedTarget(subs)), Fused(group, internal), map[]);
  }

  // ---------------------------------------------------------------- first pass: emit and renumber

  function MinOf(group: seq<int>): (m: int)
    requires group != []
    ensures m in group && forall x :: x in group ==> m <= x
  {
    if |group| == 1 then group[0]
    else
      var r := MinOf(group[1..]);
      assert group == [group[0]] + group[1..];
      if group[0] <= r then group[0] else r
  }

  /** The group an id joins; the last one listed, should there be several. */
  function GroupFor(groups: seq<seq<int>>, x: int): (r: Option<seq<int>>)
    ensures r.Some? ==> r.value in groups && x in r.value
    ensures r.None? ==> forall g :: g in groups ==> x !in g
  {
    if groups == [] then None
    else if x in groups[|groups| - 1] then Some(groups[|groups| - 1])
    else GroupFor(groups[..|groups| - 1], x)
  }

  datatype Pass = Pass(ops: seq<Op>, remap: map<int, int>, next: int, stashed: map<int, seq<int>>)

  predicate WellGrouped(job: Job) {
    forall g :: g in job.groups ==> g != [] && Known(g, ById(job.ops))
  }

  function Emit(job: Job, s: Pass, o: Op): Pass
    requires WellGrouped(job)
  {
    if o.id.None? then s.(ops := s.ops + [o])
    else
      match GroupFor(job.groups, o.id.value)
      case None =>
        Pass(s.ops + [o.(id := Some(s.next))], s.remap[o.id.value := s.next], s.next + 1, s.stashed)
      case Some(group) =>
        if o.id.value != MinOf(group) then s
        else
          var subs := Members(ById(job.ops), group);
          Pass(s.ops + [FusedOp(job, group, subs).(id := Some(s.next))],
               s.remap + (map x | x in group :: s.next), s.next + 1,
               s.stashed[s.next := ExternalDeps(group, subs)])
  }

  function FirstPass(job: Job, k: nat): Pass
    requires WellGrouped(job) && k <= |job.ops|
  {
    if k == 0 then Pass([], map[], 0, map[]) else Emit(job, FirstPass(job, k - 1), job.ops[k - 1])
  }

  // ---------------------------------------------------------------- second pass: rewire

  function Image(deps: seq<int>, remap: map<int, int>): (r: Result<seq<int>, FusionError>)
    ensures r.Ok? <==> forall d :: d in deps ==> d in remap
    ensures r.Ok? ==> |r.value| == |deps| && forall i :: 0 <= i < |deps| ==> deps[i] in remap && r.value[i] == remap[deps[i]]
  {
    if deps == [] then Ok([])
    else
      var d := deps[|deps| - 1];
      match Image(deps[..|deps| - 1], remap)
      case Err(e) => Err(e)
      case Ok(r) => if d in remap then Ok(r + [remap[d]]) else Err(MissingKey(d))
  }

  function KnownImage(deps: seq<int>, remap: map<int, int>): (r: seq<int>)
    ensures forall y :: y in r <==> exists d :: d in deps && d in remap && remap[d] == y
  {
    if deps == [] then []
    else
      var d := deps[|deps| - 1];
      assert deps == deps[..|deps| - 1] + [d];
      KnownImage(deps[..|deps| - 1], remap) + if d in remap then [remap[d]] else []
  }

  /** An op that was already fused before this rewrite has no stashed dependencies. */
  function Rewire(s: Pass, o: Op): Result<Op, FusionError> {
    if o.id.None? then Ok(o)
    else if o.origin.Fused? then
      if o.id.value !in s.stashed then Err(MissingKey(o.id.value))
      else
        match Image(s.stashed[o.id.value], s.remap)
        case Ok(deps) => Ok(o.(deps := deps))
        case Err(e) => Err(e)
    else Ok(o.(deps := OrderedUnique(KnownImage(o.deps, s.remap))))
  }

  function SecondPass(s: Pass, k: nat): (r: Result<seq<Op>, FusionError>)
    requires k <= |s.ops|
    ensures r.Ok? ==> |r.value| == k
    ensures r.Ok? <==> forall j :: 0 <= j < k ==> Rewire(s, s.ops[j]).Ok?
    ensures r.Ok? ==> forall j :: 0 <= j < k ==> Ok(r.value[j]) == Rewire(s, s.ops[j])
  {
    if k == 0 then Ok([])
    else
      match SecondPass(s, k - 1)
      case Err(e) => Err(e)
      case Ok(done) =>
        match Rewire(s, s.ops[k - 1])
        case Err(e) => Err(e)
        case Ok(o) => Ok(done + [o])
  }

  datatype Rewritten = Rewritten(ops: seq<Op>, idRemap: Option<map<int, int>>)

  function Rewrite(job: Job): Result<Rewritten, FusionError>
    requires WellGrouped(job)
  {
    var s := FirstPass(job, |job.ops|);
    match SecondPass(s, |s.ops|)
    case Ok(ops) => Ok(Rewritten(ops, Some(s.remap)))
    case Err(e) => Err(e)
  }

  // ---------------------------------------------------------------- the whole rewrite

  function Expanded(groups: seq<seq<int>>, byId: map<int, Op>, pairwise: bool): seq<seq<int>> {
    if groups == [] then []
    else
      var g := groups[|groups| - 1];
      Expanded(groups[..|groups| - 1], byId, pairwise) + if pairwise && Alternates(g, byId) then PairsOf(g) else [g]
  }

  ghost predicate AllValid(groups: seq<seq<int>>, byId: map<int, Op>) {
    forall i :: 0 <= i < |groups| ==> Valid(groups[i], byId)
  }

  ghost predicate NoOverlap(groups: seq<seq<int>>) {
    forall i, j :: 0 <= i < j < |groups| ==> AsSet(groups[i]) !! AsSet(groups[j])
  }

  /** What applying a hint comes to, refusals in the order they are looked for. */
  ghost predicate Outcome(job: Job, pairwise: bool, r: Result<Rewritten, FusionError>) {
    var byId := ById(job.ops);
    var job2 := job.(groups := Expanded(job.groups, byId, pairwise));
    if job.groups == [] then r == Ok(Rewritten(job.ops, None))
    else if !AllValid(job.groups, byId) then
      r.Err? && exists i :: FirstRefused(job.groups, byId, i, r.error)
    else if !NoOverlap(job2.groups) then r == Err(Overlapping)
    else WellGrouped(job2) && r == Rewrite(job2)
  }

  ghost predicate FirstRefused(groups: seq<seq<int>>, byId: map<int, Op>, i: int, e: FusionError) {
    0 <= i < |groups| && AllValid(groups[..i], byId) && !Valid(groups[i], byId) && Explains(e, groups[i], byId)
  }

  lemma ValidParts(group: seq<int>, byId: map<int, Op>)
    requires Valid(group, byId)
    ensures group != [] && Distinct(group) && Known(group, byId)
  {
  }

  /** Pairwise mode needs no second look: whatever it splits a valid group into is valid. */
  lemma {:induction false} ExpandedIsValid(groups: seq<seq<int>>, byId: map<int, Op>, pairwise: bool)
    requires AllValid(groups, byId)
    ensures AllValid(Expanded(groups, byId, pairwise), byId)
  {
    if groups != [] {
      hide Valid, Alternates, Known;
      var n := |groups| - 1;
      var g := groups[n];
      assert AllValid(groups[..n], byId);
      ExpandedIsValid(groups[..n], byId, pairwise);
      if pairwise && Alternates(g, byId) {
        AlternatesIsEven(g, byId);
        forall i | 0 <= i < |PairsOf(g)|
          ensures Valid(PairsOf(g)[i], byId)
        {
          PairsAreValid(g, byId, i);
        }
      }
    }
  }

  lemma AlternatesIsEven(g: seq<int>, byId: map<int, Op>)
    requires Alternates(g, byId)
    ensures |g| % 2 == 0
  {
  }

  method ValidateAll(groups: seq<seq<int>>, byId: map<int, Op>) returns (r: Option<FusionError>)
    ensures r.None? <==> AllValid(groups, byId)
    ensures r.Some? ==> exists i :: FirstRefused(groups, byId, i, r.value)
  {
    hide Valid, Explains;
    for i := 0 to |groups|
      invariant AllValid(groups[..i], byId)
    {
      r := ValidateFuseGroup(groups[i], byId);
      if r.Some? {
        assert FirstRefused(groups, byId, i, r.value);
        return;
      }
      assert groups[..i + 1] == groups[..i] + [groups[i]];
    }
    assert groups[..|groups|] == groups;
    r := None;
  }

  method Expand2(groups: seq<seq<int>>, byId: map<int, Op>, pairwise: bool) returns (r: seq<seq<int>>)
    requires AllValid(groups, byId)
    ensures r == Expanded(groups, byId, pairwise)
  {
    if !pairwise {
      NothingExpanded(groups, byId);
      return groups;
    }
    r := [];
    for i := 0 to |groups|
      invariant r == Expanded(groups[..i], byId, true)
    {
      assert groups[..i + 1][..i] == groups[..i];
      ValidParts(groups[i], byId);
      var pairs := PairwiseSplit(groups[i], byId);
      r := r + if pairs.Some? then pairs.value else [groups[i]];
    }
    assert groups[..|groups|] == groups;
  }

  lemma {:induction false} NothingExpanded(groups: seq<seq<int>>, byId: map<int, Op>)
    ensures Expanded(groups, byId, false) == groups
  {
    if groups != [] {
      NothingExpanded(groups[..|groups| - 1], byId);
    }
  }

  method HasOverlap(groups: seq<seq<int>>) returns (overlap: bool)
    ensures overlap <==> !NoOverlap(groups)
  {
    var grouped: set<int> := {};
    for i := 0 to |groups|
      invariant NoOverlap(groups[..i])
      invariant forall x :: x in grouped <==> exists j :: 0 <= j < i && x in groups[j]
    {
      var common := grouped * AsSet(groups[i]);
      if common != {} {
        HasMember(common);
        var x :| x in common;
        var j :| 0 <= j < i && x in groups[j];
        assert x in AsSet(groups[j]) && x in AsSet(groups[i]);
        return true;
      }
      forall j | 0 <= j < i
        ensures AsSet(groups[j]) !! AsSet(groups[i])
      {
        assert forall x :: x in groups[j] ==> x in grouped;
        forall x
          ensures !(x in AsSet(groups[j]) && x in AsSet(groups[i]))
        {
          assert x in AsSet(groups[j]) && x in AsSet(groups[i]) ==> x in common;
        }
      }
      grouped := grouped + AsSet(groups[i]);
    }
    assert groups[..|groups|] == groups;
    return false;
  }

  method IndexGroups(groups: seq<seq<int>>) returns (groupFor: map<int, seq<int>>)
    ensures forall x :: GroupFor(groups, x) == if x in groupFor then Some(groupFor[x]) else None
  {
    groupFor := map[];
    for i := 0 to |groups|
      invariant forall x :: GroupFor(groups[..i], x) == if x in groupFor then Some(groupFor[x]) else None
    {
      assert groups[..i + 1][..i] == groups[..i];
      groupFor := groupFor + map x | x in groups[i] :: groups[i];
    }
    assert groups[..|groups|] == groups;
  }

  method EmitOne(job: Job, byId: map<int, Op>, groupFor: map<int, seq<int>>, s: Pass, o: Op) returns (t: Pass)
    requires WellGrouped(job) && byId == ById(job.ops)
    requires forall x :: GroupFor(job.groups, x) == if x in groupFor then Some(groupFor[x]) else None
    ensures t == Emit(job, s, o)
  {
    hide ById, FusedOp, OrderedUnique, Filter, AllDeps, MinOf;
    var newOps, remap, next, stashed := s.ops, s.remap, s.next, s.stashed;
    if o.id.None? {
      newOps := newOps + [o];
    } else if o.id.value !in groupFor {
      remap := remap[o.id.value := next];
      newOps := newOps + [o.(id := Some(next))];
      next := next + 1;
    } else {
      var group := groupFor[o.id.value];
      assert GroupFor(job.groups, o.id.value) == Some(group);
      if o.id.value == MinOf(group) {
        var subs := Members(byId, group);
        var fused := BuildFusedOp(job, group, subs);
        remap := remap + map x | x in group :: next;
        var external := Unique(Filter(AllDeps(subs), d => d !in group));
        stashed := stashed[next := external];
        newOps := newOps + [fused.(id := Some(next))];
        next := next + 1;
      }
    }
    t := Pass(newOps, remap, next, stashed);
  }

  method EmitAll(job: Job) returns (s: Pass)
    requires WellGrouped(job)
    ensures s == FirstPass(job, |job.ops|)
  {
    hide ById, Emit;
    var byId := ById(job.ops);
    var groupFor := IndexGroups(job.groups);
    s := Pass([], map[], 0, map[]);
    for k := 0 to |job.ops|
      invariant s == FirstPass(job, k)
    {
      s := EmitOne(job, byId, groupFor, s, job.ops[k]);
    }
  }

  method RewireAll(s: Pass) returns (r: Result<seq<Op>, FusionError>)
    ensures r == SecondPass(s, |s.ops|)
  {
    var ops: seq<Op> := [];
    for k := 0 to |s.ops|
      invariant SecondPass(s, k) == Ok(ops)
    {
      var o := Rewire(s, s.ops[k]);
      if o.Err? {
        StaysRefused(s, k + 1);
        return Err(o.error);
      }
      ops := ops + [o.value];
    }
    return Ok(ops);
  }

  lemma {:induction false} StaysRefused(s: Pass, k: nat)
    requires k <= |s.ops| && SecondPass(s, k).Err?
    ensures SecondPass(s, |s.ops|) == SecondPass(s, k)
    decreases |s.ops| - k
  {
    if k < |s.ops| {
      StaysRefused(s, k + 1);
    }
  }

  /** Applies the groups of a hint to a list of ops. */
  method ApplyHint(network: string, ops: seq<Op>, groups: seq<seq<int>>, outputs: set<Name>, pairwise: bool)
    returns (r: Result<Rewritten, FusionError>)
    ensures Outcome(Job(network, ops, groups, outputs), pairwise, r)
  {
    hide Valid, Explains, FirstRefused, Alternates, FirstPass, SecondPass, Expanded, ById;
    if groups == [] { return Ok(Rewritten(ops, None)); }
    var byId := ById(ops);
    var refusal := ValidateAll(groups, byId);
    if refusal.Some? { return Err(refusal.value); }
    var expanded := Expand2(groups, byId, pairwise);
    var overlap := HasOverlap(expanded);
    if overlap { return Err(Overlapping); }
    var job := Job(network, ops, expanded, outputs);
    ExpandedIsValid(groups, byId, pairwise);
    forall g | g in expanded
      ensures g != [] && Known(g, byId)
    {
      var i :| 0 <= i < |expanded| && expanded[i] == g;
      ValidParts(g, byId);
    }
    var s := EmitAll(job);
    var rewired := RewireAll(s);
    match rewired
    case Err(e) => r := Err(e);
    case Ok(done) => r := Ok(Rewritten(done, Some(s.remap)));
  }
}
