/** What unfusing keeps (pipeline/apply_unfuse_hint.py): the values of all tensors that did not live
    inside an unfused op, and, after a fusion of neighbours, the original ops themselves. */
module UnfuseMeaning {
  import opened Ir
  import opened Schedules
  import opened Unfuse

  // ---------------------------------------------------------------- meaning

  /** Tensors an unfused op made for its own stages only. */
  ghost predicate WasInside(ops: seq<Op>, targets: set<int>, t: Name) {
    exists o :: o in ops && o.id.Some? && o.id.value in targets && MadeBy(o.subOps, t) && t !in o.outputs
  }

  ghost predicate NobodyReadsInside(ops: seq<Op>, targets: set<int>) {
    forall o, t :: o in ops && t in o.inputs ==> !WasInside(ops, targets, t)
  }

  ghost function Outside(ops: seq<Op>, targets: set<int>): iset<Name> {
    iset t | !WasInside(ops, targets, t)
  }

  /** The same ops up to what a kernel cannot see. */
  ghost predicate SameWork(a: seq<Op>, b: seq<Op>) {
    |a| == |b| && forall i :: 0 <= i < |a| ==>
      a[i].body == b[i].body && a[i].inputs == b[i].inputs && a[i].outputs == b[i].outputs && a[i].subOps == b[i].subOps
  }

  lemma {:induction false} SameWorkRuns(k: Kernels, a: seq<Op>, b: seq<Op>, env: Env)
    requires SameWork(a, b)
    ensures Run(k, a, env) == Run(k, b, env)
    decreases |a|
  {
    if a != [] {
      SameExec(k, a[0], b[0], env);
      SameWorkRuns(k, a[1..], b[1..], Exec(k, a[0], env));
    }
  }

  /** Running the stages in place gives the outputs the fused op gave, and touches besides only what
      lived inside it. */
  lemma StagesAgree(k: Kernels, ops: seq<Op>, targets: set<int>, o: Op, e1: Env, e2: Env)
    requires o in ops && o.id.Some? && o.id.value in targets && o.subOps != [] && SelfContained(o)
    requires NobodyReadsInside(ops, targets) && Agree(e1, e2, Outside(ops, targets))
    ensures Agree(Exec(k, o, e1), Run(k, o.subOps, e2), Outside(ops, targets))
  {
    var known := iset t | t in o.inputs;
    assert StagesContained(o.subOps, known);
    assert forall t :: t in o.outputs ==> MadeBy(o.subOps, t);
    hide Exec, Run, SelfContained, StagesContained;
    RunAgrees(k, o.subOps, e1, e2, known);
    forall t | t in Outside(ops, targets)
      ensures Read(Exec(k, o, e1), t) == Read(Run(k, o.subOps, e2), t)
    {
      if t in o.outputs {
        ExecFused(k, o, e1, t);
      } else {
        assert !MadeBy(o.subOps, t);
        ExecFrame(k, o, e1, t);
        RunFrame(k, o.subOps, e2, t);
      }
    }
  }

  lemma OneOpAgrees(k: Kernels, ops: seq<Op>, targets: set<int>, o: Op, n: Op, e1: Env, e2: Env)
    requires o in ops && SelfContained(o) && NobodyReadsInside(ops, targets) && Agree(e1, e2, Outside(ops, targets))
    requires SameWork([o], [n])
    ensures Agree(Exec(k, o, e1), Exec(k, n, e2), Outside(ops, targets))
  {
    assert [o][0] == o && [n][0] == n;
    SameExec(k, o, n, e2);
    hide Exec, SelfContained;
    ExecAgrees(k, o, e1, e2);
    forall t | t in Outside(ops, targets)
      ensures Read(Exec(k, o, e1), t) == Read(Exec(k, o, e2), t)
    {
      if t !in o.outputs {
        ExecFrame(k, o, e1, t);
        ExecFrame(k, o, e2, t);
      }
    }
  }

  lemma StepAgrees(k: Kernels, ops: seq<Op>, targets: set<int>, o: Op, s: Pass, env: Env, e1: Env)
    requires o in ops && SelfContained(o) && NobodyReadsInside(ops, targets)
    requires o.id.Some? && o.id.value in targets ==> o.subOps != []
    requires Step(s, o, targets).Ok? && Agree(e1, Run(k, s.ops, env), Outside(ops, targets))
    ensures Agree(Exec(k, o, e1), Run(k, Step(s, o, targets).value.ops, env), Outside(ops, targets))
  {
    var t := Step(s, o, targets).value;
    var e2 := Run(k, s.ops, env);
    if o.id.Some? && o.id.value in targets {
      var restored := PiecesRestore(s, o, o.id.value, ShapeOf(s.tensors, FirstOutput(o)), |o.subOps|);
      assert t.ops == s.ops + restored;
      assert SameWork(restored, o.subOps);
      hide Exec, Run, SelfContained, Step, Pieces;
      RunAppend(k, s.ops, restored, env);
      SameWorkRuns(k, restored, o.subOps, e2);
      StagesAgree(k, ops, targets, o, e1, e2);
    } else {
      var n := t.ops[|s.ops|];
      assert t.ops == s.ops + [n] && SameWork([o], [n]);
      hide Exec, Run, SelfContained, Step, Pieces;
      RunAppend(k, s.ops, [n], env);
      RunOne(k, n, e2);
      OneOpAgrees(k, ops, targets, o, n, e1, e2);
    }
  }

  lemma {:induction false} StepsAgree(k: Kernels, ops: seq<Op>, tensors: Tensors, targets: set<int>, env: Env, i: nat)
    requires AllContained(ops) && NobodyReadsInside(ops, targets) && i <= |ops|
    requires forall o :: o in ops && o.id.Some? && o.id.value in targets ==> o.subOps != []
    requires Steps(ops, tensors, targets, i).Ok?
    ensures Agree(Run(k, ops[..i], env), Run(k, Steps(ops, tensors, targets, i).value.ops, env), Outside(ops, targets))
  {
    if i > 0 {
      hide Exec, Run, SelfContained, Step, NobodyReadsInside;
      StepsAgree(k, ops, tensors, targets, env, i - 1);
      var o := ops[i - 1];
      assert o in ops && SelfContained(o);
      assert ops[..i] == ops[..i - 1] + [o];
      RunAppend(k, ops[..i - 1], [o], env);
      RunOne(k, o, Run(k, ops[..i - 1], env));
      StepAgrees(k, ops, targets, o, Steps(ops, tensors, targets, i - 1).value, env, Run(k, ops[..i - 1], env));
    } else {
      assert ops[..0] == [];
    }
  }

  /** Unfusing any set of ops whose inner tensors nobody else reads leaves the value of every other
      tensor as it was. */
  lemma UnfusingPreservesMeaning(k: Kernels, ops: seq<Op>, tensors: Tensors, targets: set<int>, env: Env, t: Name)
    requires AllContained(ops) && NobodyReadsInside(ops, targets) && !WasInside(ops, targets, t)
    requires forall o :: o in ops && o.id.Some? && o.id.value in targets ==> Unfusable(o)
    requires Steps(ops, tensors, targets, |ops|).Ok?
    ensures Read(Run(k, ops, env), t) == Read(Run(k, RelinkAll(Steps(ops, tensors, targets, |ops|).value.ops), env), t)
  {
    hide Run, SelfContained, Steps, NobodyReadsInside, Sorted, Producers;
    var news := Steps(ops, tensors, targets, |ops|).value.ops;
    StepsAgree(k, ops, tensors, targets, env, |ops|);
    assert ops[..|ops|] == ops;
    assert SameWork(RelinkAll(news), news);
    SameWorkRuns(k, RelinkAll(news), news, env);
    assert t in Outside(ops, targets);
  }
}
