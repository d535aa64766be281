/** The graph before and after an attention chain is replaced, run side by side
    (pipeline/attention_fuse.py). */
module AttentionRewriting {
  import opened Ir
  import opened Schedules
  import opened Attention
  import opened AttentionKernels
  import opened AttentionFuse
  import opened AttentionMeaning

  /** The batch is split into two factors. */
  predicate SplitsBatch(numbers: map<string, int>, m: Match) {
    "B0" in numbers && "B1" in numbers && numbers["B0"] * numbers["B1"] == m.d.batch
  }

  /** View-free or not, a graph in data-flow order with one maker per tensor and contained fused ops. */
  ghost predicate Sound(g: Net) {
    Ready(g) && UniqueNames(g.ops) && MadeOnce(g.ops) && AllContained(g.ops) && ConstantsStay(g)
  }

  /** The match can be replaced and is clean, and the constants hold what was looked up. */
  ghost predicate CleanAt(g: Net, head: nat, lookup: Lookup, layout: Layout, env: Env) {
    && Ready(g) && head < |g.ops| && FusableAt(g, head, lookup, layout)
    && var m := MatchAt(g, head, lookup).value;
       CleanMatch(g, m) && SplitsBatch(layout(m).value, m) && Honest(g, m, lookup, env)
  }

  // ---------------------------------------------------------------- the list after the splice

  lemma {:induction false} KeptMember(ops: seq<Op>, dead: set<string>, k: nat, o: Op)
    requires k <= |ops|
    ensures o in KeptOps(ops, dead, k) <==> o in ops[..k] && o.name !in dead
  {
    if k > 0 {
      KeptMember(ops, dead, k - 1, o);
      assert ops[..k] == ops[..k - 1] + [ops[k - 1]];
    }
  }

  lemma SplicedMember(ops: seq<Op>, dead: set<string>, fresh_: Op, o: Op)
    ensures o in Spliced(ops, dead, fresh_) <==> o == fresh_ || (o in ops && o.name !in dead)
  {
    var kept := KeptOps(ops, dead, |ops|);
    var p := InsertAt(ops, dead, kept, fresh_);
    hide *;
    KeptMember(ops, dead, |ops|, o);
    assert ops[..|ops|] == ops;
    SplicedIs(ops, dead, fresh_);
    assert kept == kept[..p] + kept[p..];
  }

  lemma SplicedMadeOnce(ops: seq<Op>, dead: set<string>, fresh_: Op, pv: nat)
    requires MadeOnce(ops) && pv < |ops| && ops[pv].name in dead && |fresh_.outputs| == 1 && fresh_.outputs[0] in ops[pv].outputs
    ensures MadeOnce(Spliced(ops, dead, fresh_))
  {
    var kept, at := KeptOps(ops, dead, |ops|), Kept(ops, dead, |ops|);
    var p := InsertAt(ops, dead, kept, fresh_);
    hide KeptOps, Kept, InsertAt, Spliced, MadeOnce;
    KeptOpsAre(ops, dead, |ops|);
    SplicedIs(ops, dead, fresh_);
    forall b, t | 0 <= b < |kept| && t in kept[b].outputs
      ensures t !in fresh_.outputs
    {
      assert kept[b] == ops[at[b]] && ops[at[b]].name !in dead;
      OthersMakeOthers(ops, at[b], pv, fresh_, t);
    }
    forall a, b, t | 0 <= a < |kept| && 0 <= b < |kept| && t in kept[a].outputs && t in kept[b].outputs
      ensures a == b
    {
      SameMaker(ops, at[a], at[b], t);
    }
    InsertedMadeOnce(kept, p, fresh_);
  }

  lemma SameMaker(ops: seq<Op>, i: nat, j: nat, t: Name)
    requires MadeOnce(ops) && i < |ops| && j < |ops| && t in ops[i].outputs && t in ops[j].outputs
    ensures i == j
  {
  }

  lemma OthersMakeOthers(ops: seq<Op>, i: nat, pv: nat, fresh_: Op, t: Name)
    requires MadeOnce(ops) && i < |ops| && pv < |ops| && |fresh_.outputs| == 1 && fresh_.outputs[0] in ops[pv].outputs
    requires t in ops[i].outputs && ops[i].name != ops[pv].name
    ensures t !in fresh_.outputs
  {
    if t == fresh_.outputs[0] {
      SameMaker(ops, i, pv, t);
    }
  }

  lemma InsertedMadeOnce(kept: seq<Op>, p: nat, fresh_: Op)
    requires p <= |kept| && MadeOnce(kept) && forall b, t :: 0 <= b < |kept| && t in kept[b].outputs ==> t !in fresh_.outputs
    ensures MadeOnce(kept[..p] + [fresh_] + kept[p..])
  {
    var all := kept[..p] + [fresh_] + kept[p..];
    forall i, j, t | 0 <= i < |all| && 0 <= j < |all| && t in all[i].outputs && t in all[j].outputs
      ensures i == j
    {
      var a, b := if i < p then i else i - 1, if j < p then j else j - 1;
      assert i != p ==> all[i] == kept[a];
      assert j != p ==> all[j] == kept[b];
    }
  }

  // ---------------------------------------------------------------- what goes away

  /** Nobody misses what a clean match takes away. */
  lemma NothingMissed(g: Net, m: Match, t: Name)
    requires Listed(g.ops) && UniqueNames(g.ops) && CleanMatch(g, m) && Inside(g, m) && g.ops[m.pv].outputs != []
    requires Passes(g, m.absorbed, m.pv) && Lost(g, m, t)
    ensures Unmissed(g, m, t)
  {
    hide Unmissed, Passes, CleanChain;
    if Extra(g, m, t) {
      var d: nat :| d < |g.ops| && g.ops[d].name in DeadNames(g, m) && SideOutput(g, d, t);
      assert g.ops[d] in g.ops;
      assert Further(g, m, d, t);
    } else {
      FirstIsUnmissed(g, m, t);
    }
  }

  /** The replacement's operands are not among what goes away. */
  lemma OperandStays(g: Net, m: Match, d: nat, t: Name)
    requires Listed(g.ops) && MadeOnce(g.ops) && UniqueNames(g.ops) && CleanMatch(g, m) && Usable(g, m) && IsPlainBmm(g.ops[m.pv])
    requires Passes(g, m.absorbed, m.pv) && m.absorbed[0] == m.head && forall k :: 0 <= k < |m.absorbed| ==> m.head <= m.absorbed[k] < m.pv
    requires t == g.ops[m.pv].inputs[1] || t in g.ops[m.head].inputs
    requires d < |g.ops| && t in g.ops[d].outputs
    ensures g.ops[d].name !in DeadNames(g, m)
  {
    if g.ops[d].name in DeadNames(g, m) {
      var k := DeadIsChain(g, m, d);
      if k < |m.absorbed| && t !in g.ops[m.head].inputs {
        FirstOrFurther(g, m, d, t);
        assert CleanLink(g, m.absorbed, m.pv, k);
        HandsOnAt(g, m.absorbed, m.pv, k);
        OnlyReader(g, d, if k + 1 < |m.absorbed| then m.absorbed[k + 1] else m.pv, m.pv);
        assert k + 1 == |m.absorbed|;
        NotReadTwice(g, d, m.pv);
      }
      assert false;
    }
  }

  /** What the second bmm reads of the chain is a first output. */
  lemma FirstOrFurther(g: Net, m: Match, d: nat, t: Name)
    requires CleanMatch(g, m) && d < |g.ops| && g.ops[d].name in DeadNames(g, m) && t in g.ops[d].outputs && t in g.ops[m.pv].inputs
    ensures g.ops[d].outputs != [] && t == Out(g, d)
  {
    hide CleanChain, Unmissed;
    assert g.ops[d].outputs == [g.ops[d].outputs[0]] + g.ops[d].outputs[1..];
    assert !Further(g, m, d, t);
  }

  /** Nothing that is handed on to one operand only is operand 0 and 1. */
  lemma NotReadTwice(g: Net, a: nat, r: nat)
    requires OnlyTo(g, a, r) && |g.ops[r].inputs| >= 2
    ensures !(g.ops[r].inputs[0] == Out(g, a) == g.ops[r].inputs[1])
  {
    if g.ops[r].inputs[0] == Out(g, a) == g.ops[r].inputs[1] {
      Twice(g.ops[r].inputs, Out(g, a));
      ReadersCount(g.ops, Out(g, a), |g.ops|, r);
      assert false;
    }
  }

  lemma {:induction false} Twice(names: seq<Name>, t: Name)
    requires |names| >= 2 && names[0] == t == names[1]
    ensures Occurrences(names, t) >= 2
  {
    if |names| > 2 {
      Twice(names[..|names| - 1], t);
    } else {
      assert names[..1] == [t] && [t][..0] == [];
      assert Occurrences([t], t) == 1;
    }
  }

  lemma {:induction false} ReadersCount(ops: seq<Op>, t: Name, k: nat, r: nat)
    requires r < k <= |ops|
    ensures |Readers(ops, t, k)| >= Occurrences(ops[r].inputs, t)
  {
    if r < k - 1 {
      ReadersCount(ops, t, k - 1, r);
    }
  }

  // ---------------------------------------------------------------- the values

  /** `t` is made before the rewrite and by nobody after it. */
  ghost predicate Gone(before: seq<Op>, after: seq<Op>, t: Name) { MadeBy(before, t) && !MadeBy(after, t) }

  /** The values of `e`, and of `env` for what goes away. */
  ghost function Patched(before: seq<Op>, after: seq<Op>, e: Env, env: Env): Env {
    map t | t in e.Keys + env.Keys :: if Gone(before, after, t) then Read(env, t) else Read(e, t)
  }

  lemma PatchedReads(before: seq<Op>, after: seq<Op>, e: Env, env: Env, t: Name)
    ensures Read(Patched(before, after, e, env), t) == if Gone(before, after, t) then Read(env, t) else Read(e, t)
  {
    hide Gone;
  }

  /** A constant is what it was before the run. */
  lemma HonestMoves(k: Kernels, g: Net, m: Match, lookup: Lookup, env: Env, e: Env)
    requires ConstantsStay(g) && Solves(k, g.ops, env, e) && Honest(g, m, lookup, env)
    ensures Honest(g, m, lookup, e)
  {
    hide Holds, IsTriu;
    forall t | IsConst(g.tensors, t)
      ensures Read(e, t) == Read(env, t)
    {
      assert !MadeBy(g.ops, t);
    }
    forall a, st | a in m.absorbed && a < |g.ops| && st in StagesOf(g.ops[a])
      ensures HonestMask(g, m.d, lookup, e, st)
    {
      assert HonestMask(g, m.d, lookup, env, st);
      if MaskKey(g.tensors, st) != "" {
        assert IsConst(g.tensors, st.inputs[1]);
      }
    }
  }

  /** The pieces a replacement is made of. */
  datatype Swap = Swap(g: Net, m: Match, dead: set<string>, fresh_: Op, after: seq<Op>)

  ghost predicate IsSwap(s: Swap) {
    && Sound(s.g) && CleanMatch(s.g, s.m) && Usable(s.g, s.m) && IsPlainBmm(s.g.ops[s.m.pv])
    && Passes(s.g, s.m.absorbed, s.m.pv) && s.m.absorbed[0] == s.m.head
    && (forall k :: 0 <= k < |s.m.absorbed| ==> s.m.head <= s.m.absorbed[k] < s.m.pv)
    && s.dead == DeadNames(s.g, s.m) && s.after == Spliced(s.g.ops, s.dead, s.fresh_)
    && s.fresh_.subOps == [] && s.fresh_.outputs == [s.g.ops[s.m.pv].outputs[0]]
    && s.fresh_.inputs == StagesOf(s.g.ops[s.m.head])[0].inputs[..2] + [s.g.ops[s.m.pv].inputs[1]]
    && HeadsBmm(s.g.ops[s.m.head])
  }

  /** An op that stays reads nothing that goes away. */
  lemma KeptReadsOn(s: Swap, o: Op, t: Name)
    requires IsSwap(s) && o in s.g.ops && o.name !in s.dead && (t in o.inputs || t in o.outputs)
    ensures !Gone(s.g.ops, s.after, t)
  {
    hide Spliced, Passes, DeadNames, CleanMatch;
    SplicedMember(s.g.ops, s.dead, s.fresh_, o);
    SplicedMember(s.g.ops, s.dead, s.fresh_, s.fresh_);
    var i: nat :| i < |s.g.ops| && s.g.ops[i] == o;
    if Gone(s.g.ops, s.after, t) {
      var p :| p in s.g.ops && t in p.outputs;
      SplicedMember(s.g.ops, s.dead, s.fresh_, p);
      var d: nat :| d < |s.g.ops| && s.g.ops[d] == p;
      assert t != Out(s.g, s.m.pv);
      assert Lost(s.g, s.m, t);
      NothingMissed(s.g, s.m, t);
    }
  }

  /** Outputs of the graph stay. */
  lemma OutputStays(s: Swap, t: Name)
    requires IsSwap(s) && t in s.g.outs
    ensures !Gone(s.g.ops, s.after, t)
  {
    hide Spliced, Passes, DeadNames, CleanMatch;
    SplicedMember(s.g.ops, s.dead, s.fresh_, s.fresh_);
    if Gone(s.g.ops, s.after, t) {
      var p :| p in s.g.ops && t in p.outputs;
      SplicedMember(s.g.ops, s.dead, s.fresh_, p);
      var d: nat :| d < |s.g.ops| && s.g.ops[d] == p;
      assert Lost(s.g, s.m, t);
      NothingMissed(s.g, s.m, t);
    }
  }

  /** Nor does the replacement. */
  lemma FreshReadsOn(s: Swap, t: Name)
    requires IsSwap(s) && (t in s.fresh_.inputs || t in s.fresh_.outputs)
    ensures !Gone(s.g.ops, s.after, t)
  {
    hide Spliced, Passes, DeadNames, CleanMatch;
    SplicedMember(s.g.ops, s.dead, s.fresh_, s.fresh_);
    if Gone(s.g.ops, s.after, t) {
      var p :| p in s.g.ops && t in p.outputs;
      SplicedMember(s.g.ops, s.dead, s.fresh_, p);
      var d: nat :| d < |s.g.ops| && s.g.ops[d] == p;
      FreshOperand(s, t);
      OperandStays(s.g, s.m, d, t);
      assert false;
    }
  }

  lemma FreshOperand(s: Swap, t: Name)
    requires IsSwap(s) && t in s.fresh_.inputs
    ensures t == s.g.ops[s.m.pv].inputs[1] || t in s.g.ops[s.m.head].inputs
  {
    var a := StagesOf(s.g.ops[s.m.head])[0].inputs;
    assert s.g.ops[s.m.head] in s.g.ops;
    if t != s.g.ops[s.m.pv].inputs[1] {
      assert t in a[..2];
      assert t in a;
    }
  }

  /** The patched values solve the rewritten graph. */
  lemma PatchedSolves(k: Kernels, s: Swap, env: Env, e: Env)
    requires IsSwap(s) && Solves(k, s.g.ops, env, e)
    requires Read(e, s.fresh_.outputs[0]) == First(Exec(k, s.fresh_, e), s.fresh_.outputs)
    ensures Solves(k, s.after, env, Patched(s.g.ops, s.after, e, env))
  {
    var e2 := Patched(s.g.ops, s.after, e, env);
    hide *;
    SwapSound(s);
    forall o | o in s.after
      ensures Holds(k, o, e2)
    {
      SplicedMember(s.g.ops, s.dead, s.fresh_, o);
      if o == s.fresh_ {
        FreshHolds(k, s, e);
      } else {
        SolvesHolds(k, s.g.ops, env, e, o);
      }
      forall t | t in o.inputs || t in o.outputs
        ensures Read(e, t) == Read(e2, t)
      {
        if o == s.fresh_ {
          FreshReadsOn(s, t);
        } else {
          KeptReadsOn(s, o, t);
        }
        PatchedReads(s.g.ops, s.after, e, env, t);
      }
      Contained(s, o);
      HoldsAgrees(k, o, e, e2);
    }
    forall t | !MadeBy(s.after, t)
      ensures Read(e2, t) == Read(env, t)
    {
      PatchedReads(s.g.ops, s.after, e, env, t);
      UnmadeIsGiven(k, s.g.ops, s.after, env, e, t);
    }
    SolvesIf(k, s.after, env, e2);
  }

  lemma SwapSound(s: Swap)
    requires IsSwap(s)
    ensures s.after == Spliced(s.g.ops, s.dead, s.fresh_)
  {
  }

  lemma FreshHolds(k: Kernels, s: Swap, e: Env)
    requires IsSwap(s) && Read(e, s.fresh_.outputs[0]) == First(Exec(k, s.fresh_, e), s.fresh_.outputs)
    ensures Holds(k, s.fresh_, e)
  {
  }

  lemma SolvesHolds(k: Kernels, ops: seq<Op>, env: Env, e: Env, o: Op)
    requires Solves(k, ops, env, e) && o in ops
    ensures Holds(k, o, e)
  {
  }

  lemma SolvesIf(k: Kernels, ops: seq<Op>, env: Env, e: Env)
    requires forall o :: o in ops ==> Holds(k, o, e)
    requires forall t :: !MadeBy(ops, t) ==> Read(e, t) == Read(env, t)
    ensures Solves(k, ops, env, e)
  {
  }

  lemma Contained(s: Swap, o: Op)
    requires IsSwap(s) && (o == s.fresh_ || o in s.g.ops)
    ensures SelfContained(o)
  {
  }

  lemma UnmadeIsGiven(k: Kernels, before: seq<Op>, after: seq<Op>, env: Env, e: Env, t: Name)
    requires Solves(k, before, env, e) && !MadeBy(after, t)
    ensures (if Gone(before, after, t) then Read(env, t) else Read(e, t)) == Read(env, t)
  {
    hide Holds;
  }

  /** A fusion is a swap. */
  lemma FusionIsSwap(g: Net, head: nat, lookup: Lookup, layout: Layout, env: Env) returns (s: Swap)
    requires Sound(g) && CleanAt(g, head, lookup, layout, env)
    ensures IsSwap(s) && s.g == g && s.m == MatchAt(g, head, lookup).value && s.m.head == head
    ensures s.after == FuseAt(g, head, lookup, layout).ops && s.fresh_ == AttentionOp(g, s.m, layout(s.m).value)
  {
    var m := MatchAt(g, head, lookup).value;
    MatchUsable(g, head, lookup);
    MatchIsPrivate(g, head, lookup);
    FuseAtIs(g, head, lookup, layout);
    hide MatchAt, FuseAt, Passes, CleanMatch, Honest, ConstantsStay;
    var fresh_ := AttentionOp(g, m, layout(m).value);
    s := Swap(g, m, DeadNames(g, m), fresh_, Spliced(g.ops, DeadNames(g, m), fresh_));
  }

  /** The replacement makes the formula of the match. */
  lemma FreshMakes(k: Kernels, soft: Soft, g: Net, m: Match, numbers: map<string, int>, e: Env)
    requires Interprets(k, soft) && Usable(g, m) && SplitsBatch(numbers, m)
    ensures var f := AttentionOp(g, m, numbers);
      First(Exec(k, f, e), f.outputs) ==
        Attended(soft, MatchFormula(m), Read(e, StagesOf(g.ops[m.head])[0].inputs[0]), Read(e, StagesOf(g.ops[m.head])[0].inputs[1]), Read(e, g.ops[m.pv].inputs[1]))
  {
    var f := AttentionOp(g, m, numbers);
    var vs := ReadAll(e, f.inputs);
    FreshFormula(g, m, numbers);
    FreshKind(f);
    assert Meant(soft, f, vs) == Some(Attended(soft, FormulaOf(f), vs[0], vs[1], vs[2]));
    hide Meant, Interprets, Attended, FormulaOf, AttentionOp;
    FreshClean(g, m, numbers);
    StageMakes(k, soft, f, e);
  }

  lemma FreshClean(g: Net, m: Match, numbers: map<string, int>)
    requires Usable(g, m)
    ensures var f := AttentionOp(g, m, numbers); CleanStage(f) && f.outputs != []
  {
    FreshKind(AttentionOp(g, m, numbers));
  }

  lemma FreshKind(f: Op)
    requires f.body.kind == KIND
    ensures !IsBmm(f) && ScaleOf(f).None? && !IsMaskedFill(f) && !IsRowSoftmax(f) && !IsRelu(f) && !IsView(f)
  {
    assert |KIND| == 13;
    assert KIND[0] == 'a';
    assert "softmax_f16"[0] == 's';
  }

  lemma FreshFormula(g: Net, m: Match, numbers: map<string, int>)
    requires Usable(g, m) && SplitsBatch(numbers, m)
    ensures FormulaOf(AttentionOp(g, m, numbers)) == MatchFormula(m)
  {
    var s := numbers + MatchNumbers(m);
    assert s["B0"] == numbers["B0"] && s["B1"] == numbers["B1"];
  }

  /** Replacing a clean chain keeps the value of every tensor that is still made, and of every tensor
      that nobody made before: for all kernels that mean what the reference kernels say, and all inputs.
      Outputs of the graph are among them. */
  lemma FusingPreservesMeaning(k: Kernels, soft: Soft, g: Net, head: nat, lookup: Lookup, layout: Layout, env: Env, t: Name)
    requires Sound(g) && CleanAt(g, head, lookup, layout, env) && Interprets(k, soft)
    requires !Gone(g.ops, FuseAt(g, head, lookup, layout).ops, t)
    ensures Read(Run(k, FuseAt(g, head, lookup, layout).ops, env), t) == Read(Run(k, g.ops, env), t)
  {
    var s := FusionIsSwap(g, head, lookup, layout, env);
    var e := Run(k, g.ops, env);
    hide FuseAt, MatchAt, Honest, CleanMatch, Attended, AttentionOp, Run, Exec;
    RunSolves(k, g.ops, env);
    HonestMoves(k, g, s.m, lookup, env, e);
    MatchMeansAttention(k, soft, g, head, lookup, e);
    FreshMakes(k, soft, g, s.m, layout(s.m).value, e);
    PatchedSolves(k, s, env, e);
    SoundAfter(s);
    RunSolves(k, s.after, env);
    SolutionIsUnique(k, s.after, env, Run(k, s.after, env), Patched(s.g.ops, s.after, e, env), t);
    PatchedReads(s.g.ops, s.after, e, env, t);
  }

  lemma OutputsAreKept(g: Net, head: nat, lookup: Lookup, layout: Layout, env: Env, t: Name)
    requires Sound(g) && CleanAt(g, head, lookup, layout, env) && t in g.outs
    ensures !Gone(g.ops, FuseAt(g, head, lookup, layout).ops, t)
  {
    var s := FusionIsSwap(g, head, lookup, layout, env);
    hide *;
    OutputStays(s, t);
  }

  lemma SoundAfter(s: Swap)
    requires IsSwap(s)
    ensures Flows(s.after) && MadeOnce(s.after) && AllContained(s.after)
  {
    var g, m := s.g, s.m;
    assert forall t :: t in StagesOf(g.ops[m.head])[0].inputs[..2] ==> t in StagesOf(g.ops[m.head])[0].inputs;
    assert g.ops[m.head] in g.ops;
    assert StandsIn(g.ops, s.dead, s.fresh_, m.head, m.pv);
    hide Spliced, Passes, CleanMatch;
    SpliceFlows(g.ops, s.dead, s.fresh_, m.head, m.pv);
    SplicedMadeOnce(g.ops, s.dead, s.fresh_, m.pv);
    forall o | o in s.after
      ensures SelfContained(o)
    {
      SplicedMember(g.ops, s.dead, s.fresh_, o);
      Contained(s, o);
    }
  }
}
