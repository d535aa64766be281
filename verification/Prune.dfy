/** Dead-op pruning (pipeline/graph_prune.py): a backward liveness scan over the op list.

    Dropping the dead ops changes no graph output, whatever the kernels do; on a list where
    readers follow makers an op is dropped exactly when no dataflow path leads from it to
    something observable; and pruning again drops nothing. */
module Prune {
  import opened Ir

  /** Observable on its own account: no outputs, or a kind with side effects. */
  predicate AlwaysLive(o: Op, serial: set<string>) {
    o.outputs == [] || o.body.kind in serial
  }

  predicate Keep(o: Op, serial: set<string>, live: set<Name>) {
    AlwaysLive(o, serial) || exists t :: t in o.outputs && t in live
  }

  function AsSet(ts: seq<Name>): set<Name> {
    set t | t in ts
  }

  /** The tensors needed by ops i, i+1, ... and the graph outputs. */
  function LiveFrom(ops: seq<Op>, serial: set<string>, outs: set<Name>, i: nat): set<Name>
    requires i <= |ops|
    decreases |ops| - i
  {
    if i == |ops| then outs
    else
      var l := LiveFrom(ops, serial, outs, i + 1);
      if Keep(ops[i], serial, l) then l + set t | t in ops[i].inputs else l
  }

  predicate IsKept(ops: seq<Op>, serial: set<string>, outs: set<Name>, i: nat)
    requires i < |ops|
  {
    Keep(ops[i], serial, LiveFrom(ops, serial, outs, i + 1))
  }

  /** The kept ops from position i on, in IR order. */
  function KeptFrom(ops: seq<Op>, serial: set<string>, outs: set<Name>, i: nat): seq<Op>
    requires i <= |ops|
    decreases |ops| - i
  {
    if i == |ops| then []
    else (if IsKept(ops, serial, outs, i) then [ops[i]] else []) + KeptFrom(ops, serial, outs, i + 1)
  }

  // ---------------------------------------------------------------- the scan

  method Analyse(ops: seq<Op>, serial: set<string>, outs: seq<Name>) returns (dead: set<nat>, live: set<Name>)
    ensures outs == [] ==> dead == {} && live == {}
    ensures outs != [] ==>
      && live == LiveFrom(ops, serial, AsSet(outs), 0)
      && forall i: nat :: i in dead <==> i < |ops| && !IsKept(ops, serial, AsSet(outs), i)
  {
    if outs == [] { return {}, {}; }
    var observed := AsSet(outs);
    live := observed;
    dead := {};
    for i := |ops| downto 0
      invariant live == LiveFrom(ops, serial, observed, i)
      invariant forall j: nat :: j in dead <==> i <= j < |ops| && !IsKept(ops, serial, observed, j)
    {
      if Keep(ops[i], serial, live) {
        live := live + set t | t in ops[i].inputs;
      } else {
        dead := dead + {i};
      }
    }
  }

  /** Indices of the dead ops, in IR order. */
  method DeadOps(ops: seq<Op>, serial: set<string>, outs: seq<Name>) returns (r: seq<nat>)
    ensures forall a, b :: 0 <= a < b < |r| ==> r[a] < r[b]
    ensures forall i: nat :: i in r <==> outs != [] && i < |ops| && !IsKept(ops, serial, AsSet(outs), i)
  {
    var dead, _ := Analyse(ops, serial, outs);
    r := [];
    for i := 0 to |ops|
      invariant forall a, b :: 0 <= a < b < |r| ==> r[a] < r[b]
      invariant forall a :: 0 <= a < |r| ==> r[a] < i
      invariant forall j: nat :: j in r <==> j < i && j in dead
    {
      if i in dead { r := r + [i]; }
    }
  }

  /** The members of a selection that are not dead, in order and as often as they were selected. */
  function LivePart(sel: seq<nat>, dead: seq<nat>): (r: seq<nat>)
    ensures forall i: nat :: i in r <==> i in sel && i !in dead
    ensures forall i: nat :: i !in dead ==> multiset(r)[i] == multiset(sel)[i]
  {
    if sel == [] then []
    else
      var init, i := sel[..|sel| - 1], sel[|sel| - 1];
      assert sel == init + [i];
      LivePart(init, dead) + if i in dead then [] else [i]
  }

  method KeepLive(sel: seq<nat>, dead: seq<nat>) returns (keep: seq<nat>)
    ensures keep == LivePart(sel, dead)
  {
    keep := [];
    for n := 0 to |sel|
      invariant keep == LivePart(sel[..n], dead)
    {
      assert sel[..n + 1][..n] == sel[..n];
      if sel[n] !in dead { keep := keep + [sel[n]]; }
    }
    assert sel[..|sel|] == sel;
  }

  /** The live part of a selection; a selection with nothing live is left whole. */
  method PruneSelection(ops: seq<Op>, serial: set<string>, outs: seq<Name>, sel: seq<nat>, enabled: bool)
    returns (keep: seq<nat>, dead: seq<nat>)
    requires forall i :: i in sel ==> i < |ops|
    ensures sel != [] ==> keep != []
    ensures dead != [] ==>
      && (forall i: nat :: i in keep <==> i in sel && IsKept(ops, serial, AsSet(outs), i))
      && (forall i: nat :: i in dead <==> i < |ops| && !IsKept(ops, serial, AsSet(outs), i))
    ensures dead != [] ==> keep == LivePart(sel, dead)
    ensures forall a, b :: 0 <= a < b < |dead| ==> dead[a] < dead[b]
    ensures dead == [] ==> keep == sel
    ensures dead == [] && enabled && outs != [] && (exists i :: i in sel && IsKept(ops, serial, AsSet(outs), i))
      ==> forall i :: 0 <= i < |ops| ==> IsKept(ops, serial, AsSet(outs), i)
  {
    if !enabled { return sel, []; }
    dead := DeadOps(ops, serial, outs);
    if dead == [] {
      assert forall i: nat :: i !in dead;
      return sel, [];
    }
    var d0 := dead[0];
    assert d0 in dead;
    keep := KeepLive(sel, dead);
    if keep == [] {
      forall i | i in sel
        ensures !IsKept(ops, serial, AsSet(outs), i)
      {
        assert i !in keep;
      }
      return sel, [];
    }
  }

  // ---------------------------------------------------------------- soundness

  /** Running the kept ops agrees with running all of them on everything still needed. */
  lemma {:induction false} PrunedRunAgrees(k: Kernels, ops: seq<Op>, serial: set<string>, outs: set<Name>, i: nat, e1: Env, e2: Env)
    requires i <= |ops|
    requires forall o :: o in ops ==> SelfContained(o)
    requires Agree(e1, e2, iset t | t in LiveFrom(ops, serial, outs, i))
    ensures Agree(Run(k, ops[i..], e1), Run(k, KeptFrom(ops, serial, outs, i), e2), iset t | t in outs)
    decreases |ops| - i
  {
    if i < |ops| {
      var o := ops[i];
      var after := LiveFrom(ops, serial, outs, i + 1);
      assert o in ops && ops[i..][0] == o && ops[i..][1..] == ops[i + 1..];
      var f1 := Exec(k, o, e1);
      if IsKept(ops, serial, outs, i) {
        var f2 := Exec(k, o, e2);
        ExecAgrees(k, o, e1, e2);
        forall t | t in after
          ensures Read(f1, t) == Read(f2, t)
        {
          if t !in o.outputs {
            ExecFrame(k, o, e1, t);
            ExecFrame(k, o, e2, t);
          }
        }
        PrunedRunAgrees(k, ops, serial, outs, i + 1, f1, f2);
        var kept := KeptFrom(ops, serial, outs, i);
        assert kept[0] == o && kept[1..] == KeptFrom(ops, serial, outs, i + 1);
      } else {
        forall t | t in after
          ensures Read(f1, t) == Read(e2, t)
        {
          ExecFrame(k, o, e1, t);
        }
        PrunedRunAgrees(k, ops, serial, outs, i + 1, f1, e2);
        assert KeptFrom(ops, serial, outs, i) == KeptFrom(ops, serial, outs, i + 1);
      }
    }
  }

  /** Pruning changes no graph output: for all kernels, inputs and op lists. */
  lemma PruningIsSound(k: Kernels, ops: seq<Op>, serial: set<string>, outs: set<Name>, env: Env)
    requires forall o :: o in ops ==> SelfContained(o)
    ensures forall t :: t in outs ==>
      Read(Run(k, KeptFrom(ops, serial, outs, 0), env), t) == Read(Run(k, ops, env), t)
  {
    PrunedRunAgrees(k, ops, serial, outs, 0, env, env);
    assert ops[0..] == ops;
  }

  // ---------------------------------------------------------------- exactness

  ghost predicate Feeds(ops: seq<Op>, i: nat, j: nat) {
    i < |ops| && j < |ops| && exists t :: t in ops[i].outputs && t in ops[j].inputs
  }

  ghost predicate Observable(ops: seq<Op>, serial: set<string>, outs: set<Name>, i: nat) {
    i < |ops| && (ops[i].outputs == [] || ops[i].body.kind in serial || exists t :: t in ops[i].outputs && t in outs)
  }

  /** A dataflow path to a graph output or to an always-live op. */
  ghost predicate IsWitness(ops: seq<Op>, serial: set<string>, outs: set<Name>, p: seq<nat>) {
    && |p| >= 1
    && (forall n {:trigger p[n]} :: 0 <= n < |p| - 1 ==> Feeds(ops, p[n], p[n + 1]))
    && Observable(ops, serial, outs, p[|p| - 1])
  }

  ghost predicate Needed(ops: seq<Op>, serial: set<string>, outs: set<Name>, i: nat) {
    exists p :: IsWitness(ops, serial, outs, p) && p[0] == i
  }

  ghost predicate ReadersFollow(ops: seq<Op>) {
    forall i, j :: Feeds(ops, i, j) ==> i <= j
  }

  lemma {:induction false} LiveHasReader(ops: seq<Op>, serial: set<string>, outs: set<Name>, i: nat, t: Name) returns (j: nat)
    requires i <= |ops| && t in LiveFrom(ops, serial, outs, i)
    ensures t !in outs ==> i <= j < |ops| && IsKept(ops, serial, outs, j) && t in ops[j].inputs
    decreases |ops| - i
  {
    j := i;
    if t !in outs && !(IsKept(ops, serial, outs, i) && t in ops[i].inputs) {
      j := LiveHasReader(ops, serial, outs, i + 1, t);
    }
  }

  lemma {:induction false} KeptInputsAreLive(ops: seq<Op>, serial: set<string>, outs: set<Name>, i: nat, j: nat)
    requires i <= j < |ops| && IsKept(ops, serial, outs, j)
    ensures forall t :: t in ops[j].inputs ==> t in LiveFrom(ops, serial, outs, i)
    decreases j - i
  {
    if i < j {
      KeptInputsAreLive(ops, serial, outs, i + 1, j);
    }
  }

  lemma {:induction false} OutsStayLive(ops: seq<Op>, serial: set<string>, outs: set<Name>, i: nat)
    requires i <= |ops|
    ensures outs <= LiveFrom(ops, serial, outs, i)
    decreases |ops| - i
  {
    if i < |ops| {
      OutsStayLive(ops, serial, outs, i + 1);
    }
  }

  lemma {:induction false} KeptIsNeeded(ops: seq<Op>, serial: set<string>, outs: set<Name>, i: nat) returns (p: seq<nat>)
    requires i < |ops| && IsKept(ops, serial, outs, i)
    ensures IsWitness(ops, serial, outs, p) && p[0] == i
    decreases |ops| - i
  {
    p := [i];
    if !Observable(ops, serial, outs, i) {
      var t :| t in ops[i].outputs && t in LiveFrom(ops, serial, outs, i + 1);
      var j := LiveHasReader(ops, serial, outs, i + 1, t);
      assert Feeds(ops, i, j);
      var q := KeptIsNeeded(ops, serial, outs, j);
      p := [i] + q;
      forall n | 0 <= n < |p| - 1
        ensures Feeds(ops, p[n], p[n + 1])
      {
        if n > 0 { assert Feeds(ops, q[n - 1], q[n - 1 + 1]); }
      }
    }
  }

  lemma {:induction false} WitnessIsKept(ops: seq<Op>, serial: set<string>, outs: set<Name>, p: seq<nat>)
    requires ReadersFollow(ops)
    requires IsWitness(ops, serial, outs, p)
    ensures p[0] < |ops| && IsKept(ops, serial, outs, p[0])
    decreases |p|
  {
    var i := p[0];
    if |p| == 1 {
      OutsStayLive(ops, serial, outs, i + 1);
    } else {
      var q := p[1..];
      assert Feeds(ops, p[0], p[0 + 1]);
      forall n {:trigger q[n]} | 0 <= n < |q| - 1
        ensures Feeds(ops, q[n], q[n + 1])
      {
        assert Feeds(ops, p[n + 1], p[n + 1 + 1]);
      }
      WitnessIsKept(ops, serial, outs, q);
      if p[1] != i {
        KeptInputsAreLive(ops, serial, outs, i + 1, p[1]);
      }
    }
  }

  /** On a list whose readers follow their makers, the dead ops are exactly the unneeded ones. */
  lemma DeadIffUnneeded(ops: seq<Op>, serial: set<string>, outs: set<Name>, i: nat)
    requires ReadersFollow(ops) && i < |ops|
    ensures !IsKept(ops, serial, outs, i) <==> !Needed(ops, serial, outs, i)
  {
    if IsKept(ops, serial, outs, i) {
      var p := KeptIsNeeded(ops, serial, outs, i);
    }
    if Needed(ops, serial, outs, i) {
      var p :| IsWitness(ops, serial, outs, p) && p[0] == i;
      WitnessIsKept(ops, serial, outs, p);
    }
  }

  /** A live tensor is a graph output or read by a kept op, and nothing else is. */
  lemma LiveTensors(ops: seq<Op>, serial: set<string>, outs: set<Name>, t: Name)
    ensures t in LiveFrom(ops, serial, outs, 0) <==>
      t in outs || exists j :: 0 <= j < |ops| && IsKept(ops, serial, outs, j) && t in ops[j].inputs
  {
    OutsStayLive(ops, serial, outs, 0);
    if t in LiveFrom(ops, serial, outs, 0) {
      var j := LiveHasReader(ops, serial, outs, 0, t);
    }
    if j :| 0 <= j < |ops| && IsKept(ops, serial, outs, j) && t in ops[j].inputs {
      KeptInputsAreLive(ops, serial, outs, 0, j);
    }
  }

  // ---------------------------------------------------------------- idempotence

  lemma {:induction false} LiveOfSuffix(ops: seq<Op>, serial: set<string>, outs: set<Name>, i: nat)
    requires 0 < i <= |ops|
    ensures LiveFrom(ops, serial, outs, i) == LiveFrom(ops[1..], serial, outs, i - 1)
    ensures KeptFrom(ops, serial, outs, i) == KeptFrom(ops[1..], serial, outs, i - 1)
    decreases |ops| - i
  {
    if i < |ops| {
      LiveOfSuffix(ops, serial, outs, i + 1);
    }
  }

  lemma {:induction false} KeptListStays(ops: seq<Op>, serial: set<string>, outs: set<Name>)
    ensures var kept := KeptFrom(ops, serial, outs, 0);
      && LiveFrom(kept, serial, outs, 0) == LiveFrom(ops, serial, outs, 0)
      && KeptFrom(kept, serial, outs, 0) == kept
    decreases |ops|
  {
    if ops != [] {
      var rest := ops[1..];
      LiveOfSuffix(ops, serial, outs, 1);
      KeptListStays(rest, serial, outs);
      var kept := KeptFrom(ops, serial, outs, 0);
      if IsKept(ops, serial, outs, 0) {
        assert kept[1..] == KeptFrom(rest, serial, outs, 0);
        LiveOfSuffix(kept, serial, outs, 1);
      } else {
        assert kept == KeptFrom(rest, serial, outs, 0);
      }
    }
  }

  /** Pruning a pruned list drops nothing. */
  lemma PruningIsIdempotent(ops: seq<Op>, serial: set<string>, outs: set<Name>)
    ensures KeptFrom(KeptFrom(ops, serial, outs, 0), serial, outs, 0) == KeptFrom(ops, serial, outs, 0)
  {
    KeptListStays(ops, serial, outs);
  }
}
