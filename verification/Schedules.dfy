/** Running a graph in any order its dependencies allow.

    A list of ops determines a system of equations, one per op; a run in an order that respects the
    data flow solves it, and it has one solution only. So rewrites can be compared by equations,
    without moving ops past each other. */
module Schedules {
  import opened Ir

  ghost predicate DistinctIds(ops: seq<Op>) {
    && (forall o :: o in ops ==> o.id.Some?)
    && (forall i, j :: 0 <= i < j < |ops| ==> ops[i].id != ops[j].id)
  }

  /** What an op reads is made by ops it depends on. */
  ghost predicate FlowInDeps(ops: seq<Op>) {
    forall o, p, t :: o in ops && p in ops && t in o.inputs && t in p.outputs ==> p.id.Some? && p.id.value in o.deps
  }

  ghost predicate SingleMaker(ops: seq<Op>) {
    forall o, p, t :: o in ops && p in ops && t in o.outputs && t in p.outputs ==> o == p
  }

  ghost predicate AllContained(ops: seq<Op>) {
    forall o :: o in ops ==> SelfContained(o)
  }

  /** View-free, single-producer, with the data flow in the dependencies. */
  ghost predicate Dataflow(ops: seq<Op>) {
    DistinctIds(ops) && FlowInDeps(ops) && SingleMaker(ops) && AllContained(ops)
  }

  /** The ops in an order in which every op comes after those it depends on. */
  ghost predicate Schedule(ops: seq<Op>, sched: seq<Op>) {
    && (forall o :: o in sched <==> o in ops)
    && DistinctIds(sched)
    && forall i, j :: 0 <= i < |sched| && 0 <= j < |sched| && sched[j].id.Some? && sched[j].id.value in sched[i].deps ==> j < i
  }

  /** Makers come before readers. */
  ghost predicate Flows(sched: seq<Op>) {
    forall i, j, t :: 0 <= i < |sched| && 0 <= j < |sched| && t in sched[i].inputs && t in sched[j].outputs ==> j < i
  }

  ghost predicate MadeOnce(sched: seq<Op>) {
    forall i, j, t :: 0 <= i < |sched| && 0 <= j < |sched| && t in sched[i].outputs && t in sched[j].outputs ==> i == j
  }

  lemma ScheduleFlows(ops: seq<Op>, sched: seq<Op>)
    requires FlowInDeps(ops) && SingleMaker(ops) && AllContained(ops) && Schedule(ops, sched)
    ensures Flows(sched) && MadeOnce(sched) && AllContained(sched)
  {
    forall i, j, t | 0 <= i < |sched| && 0 <= j < |sched| && t in sched[i].inputs && t in sched[j].outputs
      ensures j < i
    {
      assert sched[i] in ops && sched[j] in ops;
    }
    forall i, j, t | 0 <= i < |sched| && 0 <= j < |sched| && t in sched[i].outputs && t in sched[j].outputs
      ensures i == j
    {
      assert sched[i] in ops && sched[j] in ops;
      assert sched[i].id == sched[j].id;
    }
  }

  // ---------------------------------------------------------------- equations

  ghost predicate Holds(k: Kernels, o: Op, e: Env) {
    forall t :: t in o.outputs ==> Read(e, t) == Read(Exec(k, o, e), t)
  }

  /** Every op's outputs are what the op makes of its inputs; tensors no op makes are as given. */
  ghost predicate Solves(k: Kernels, ops: seq<Op>, given: Env, e: Env) {
    && (forall o :: o in ops ==> Holds(k, o, e))
    && (forall t :: !MadeBy(ops, t) ==> Read(e, t) == Read(given, t))
  }

  lemma HoldsAgrees(k: Kernels, o: Op, e1: Env, e2: Env)
    requires SelfContained(o) && Holds(k, o, e1)
    requires forall t :: t in o.inputs || t in o.outputs ==> Read(e1, t) == Read(e2, t)
    ensures Holds(k, o, e2)
  {
    ExecAgrees(k, o, e1, e2);
  }

  lemma RunLast(k: Kernels, ops: seq<Op>, env: Env)
    requires ops != []
    ensures Run(k, ops, env) == Exec(k, ops[|ops| - 1], Run(k, ops[..|ops| - 1], env))
  {
    var init, o := ops[..|ops| - 1], ops[|ops| - 1];
    assert ops == init + [o];
    RunAppend(k, init, [o], env);
    RunOne(k, o, Run(k, init, env));
  }

  /** A run in data-flow order solves the equations. */
  lemma {:induction false} RunSolves(k: Kernels, sched: seq<Op>, env: Env)
    requires Flows(sched) && MadeOnce(sched) && AllContained(sched)
    ensures Solves(k, sched, env, Run(k, sched, env))
  {
    if sched != [] {
      var n := |sched| - 1;
      var init, o := sched[..n], sched[n];
      assert forall i :: 0 <= i < n ==> init[i] == sched[i];
      RunSolves(k, init, env);
      RunLast(k, sched, env);
      var before, after := Run(k, init, env), Run(k, sched, env);
      hide Run, Exec, SelfContained;
      assert o in sched;
      assert forall p :: p in sched <==> p in init || p == o by { assert sched == init + [o]; }
      forall p | p in sched
        ensures Holds(k, p, after)
      {
        if p in init {
          var i :| 0 <= i < n && init[i] == p;
          StaysSolved(k, sched, i, before, after);
        } else {
          LastSolved(k, o, before, after, sched);
        }
      }
      forall t | !MadeBy(sched, t)
        ensures Read(after, t) == Read(env, t)
      {
        ExecFrame(k, o, before, t);
        assert !MadeBy(init, t);
      }
    }
  }

  lemma StaysSolved(k: Kernels, sched: seq<Op>, i: nat, before: Env, after: Env)
    requires Flows(sched) && MadeOnce(sched) && AllContained(sched) && i < |sched| - 1
    requires Holds(k, sched[i], before) && after == Exec(k, sched[|sched| - 1], before)
    ensures Holds(k, sched[i], after)
  {
    var o, p := sched[|sched| - 1], sched[i];
    hide Exec, SelfContained;
    forall t | t in p.inputs || t in p.outputs
      ensures Read(before, t) == Read(after, t)
    {
      assert t !in o.outputs;
      ExecFrame(k, o, before, t);
    }
    assert SelfContained(p);
    HoldsAgrees(k, p, before, after);
  }

  lemma LastSolved(k: Kernels, o: Op, before: Env, after: Env, sched: seq<Op>)
    requires Flows(sched) && AllContained(sched) && sched != [] && o == sched[|sched| - 1] && after == Exec(k, o, before)
    ensures Holds(k, o, after)
  {
    hide Exec, SelfContained;
    forall t | t in o.inputs
      ensures Read(before, t) == Read(after, t)
    {
      assert t !in o.outputs;
      ExecFrame(k, o, before, t);
    }
    assert SelfContained(o);
    ExecAgrees(k, o, before, after);
  }

  lemma {:induction false} SolutionsAgreeUpTo(k: Kernels, sched: seq<Op>, given: Env, e1: Env, e2: Env, i: nat)
    requires Flows(sched) && AllContained(sched) && Solves(k, sched, given, e1) && Solves(k, sched, given, e2) && i < |sched|
    ensures forall t :: t in sched[i].outputs ==> Read(e1, t) == Read(e2, t)
  {
    hide Exec, SelfContained;
    var o := sched[i];
    assert o in sched && Holds(k, o, e1) && Holds(k, o, e2) && SelfContained(o);
    forall t | t in o.inputs
      ensures Read(e1, t) == Read(e2, t)
    {
      if MadeBy(sched, t) {
        var p :| p in sched && t in p.outputs;
        var j :| 0 <= j < |sched| && sched[j] == p;
        SolutionsAgreeUpTo(k, sched, given, e1, e2, j);
      }
    }
    ExecAgrees(k, o, e1, e2);
  }

  /** The equations have one solution. */
  lemma SolutionIsUnique(k: Kernels, sched: seq<Op>, given: Env, e1: Env, e2: Env, t: Name)
    requires Flows(sched) && AllContained(sched) && Solves(k, sched, given, e1) && Solves(k, sched, given, e2)
    ensures Read(e1, t) == Read(e2, t)
  {
    if MadeBy(sched, t) {
      var p :| p in sched && t in p.outputs;
      var j :| 0 <= j < |sched| && sched[j] == p;
      SolutionsAgreeUpTo(k, sched, given, e1, e2, j);
    }
  }

  /** Every order that the dependencies allow computes the same. */
  lemma OrderDoesNotMatter(k: Kernels, ops: seq<Op>, s1: seq<Op>, s2: seq<Op>, env: Env, t: Name)
    requires FlowInDeps(ops) && SingleMaker(ops) && AllContained(ops) && Schedule(ops, s1) && Schedule(ops, s2)
    ensures Read(Run(k, s1, env), t) == Read(Run(k, s2, env), t)
  {
    ScheduleFlows(ops, s1);
    ScheduleFlows(ops, s2);
    RunSolves(k, s1, env);
    RunSolves(k, s2, env);
    SolvesMoves(k, s2, s1, env, Run(k, s2, env));
    SolutionIsUnique(k, s1, env, Run(k, s1, env), Run(k, s2, env), t);
  }

  lemma SolvesMoves(k: Kernels, a: seq<Op>, b: seq<Op>, given: Env, e: Env)
    requires (forall o :: o in a <==> o in b) && Solves(k, a, given, e)
    ensures Solves(k, b, given, e)
  {
    hide Holds;
    forall t
      ensures MadeBy(a, t) <==> MadeBy(b, t)
    {
    }
  }

  // ---------------------------------------------------------------- running one op

  lemma {:induction false} WriteRead(e: Env, f: Env, ts: seq<Name>, t: Name)
    requires t in ts
    ensures Read(Write(e, ts, ReadAll(f, ts)), t) == Read(f, t)
    decreases |ts|
  {
    var vs := ReadAll(f, ts);
    var e1 := e[ts[0] := vs[0]];
    assert vs[1..] == ReadAll(f, ts[1..]);
    if t in ts[1..] {
      WriteRead(e1, f, ts[1..], t);
    } else {
      WriteReads(e1, ts[1..], vs[1..], t);
    }
  }

  lemma ExecFused(k: Kernels, n: Op, e: Env, t: Name)
    requires n.subOps != [] && t in n.outputs
    ensures Read(Exec(k, n, e), t) == Read(Run(k, n.subOps, e), t)
  {
    WriteRead(e, Run(k, n.subOps, e), n.outputs, t);
  }

  lemma SameExec(k: Kernels, o: Op, n: Op, e: Env)
    requires n.body == o.body && n.inputs == o.inputs && n.outputs == o.outputs && n.subOps == o.subOps
    ensures Exec(k, n, e) == Exec(k, o, e)
  {
  }
}
