/** The dependencies that unfusing derives from producers (pipeline/apply_unfuse_hint.py): the result
    can be scheduled, and every order they allow computes what the fused graph computed. */
module UnfuseSchedule {
  import opened Ir
  import opened Schedules
  import opened Unfuse
  import opened UnfuseMeaning

  // ---------------------------------------------------------------- ids

  ghost predicate HasIds(ops: seq<Op>) {
    forall o :: o in ops ==> o.id.Some?
  }

  /** Ids count from 0 in list order. */
  ghost predicate Counted(ops: seq<Op>) {
    forall i :: 0 <= i < |ops| ==> ops[i].id == Some(i)
  }

  lemma RestoredIds(s: Pass, o: Op, targets: set<int>) returns (restored: seq<Op>)
    requires o.id.Some? && Step(s, o, targets).Ok?
    ensures var r := Step(s, o, targets).value; r.ops == s.ops + restored && r.next == s.next + |restored|
    ensures forall i :: 0 <= i < |restored| ==> restored[i].id == Some(s.next + i)
  {
    if o.id.value in targets {
      hide Pieces, ShapeOf, FirstOutput;
      restored := PiecesRestore(s, o, o.id.value, ShapeOf(s.tensors, FirstOutput(o)), |o.subOps|);
    } else {
      hide Pieces;
      restored := [o.(id := Some(s.next))];
    }
  }

  lemma StepCounts(s: Pass, o: Op, targets: set<int>)
    requires o.id.Some? && Step(s, o, targets).Ok? && Counted(s.ops) && s.next == |s.ops|
    ensures var r := Step(s, o, targets).value; Counted(r.ops) && r.next == |r.ops|
  {
    hide *;
    var restored := RestoredIds(s, o, targets);
    CountedJoin(s.ops, restored);
  }

  lemma CountedJoin(a: seq<Op>, b: seq<Op>)
    requires Counted(a) && forall i :: 0 <= i < |b| ==> b[i].id == Some(|a| + i)
    ensures Counted(a + b)
  {
  }

  lemma {:induction false} StepsCount(ops: seq<Op>, tensors: Tensors, targets: set<int>, n: nat)
    requires HasIds(ops) && n <= |ops| && Steps(ops, tensors, targets, n).Ok?
    ensures Counted(Steps(ops, tensors, targets, n).value.ops) && Steps(ops, tensors, targets, n).value.next == |Steps(ops, tensors, targets, n).value.ops|
  {
    hide Step, Counted;
    if n > 0 {
      StepsCount(ops, tensors, targets, n - 1);
      assert ops[n - 1] in ops;
      StepCounts(Steps(ops, tensors, targets, n - 1).value, ops[n - 1], targets);
    } else {
      NothingCounted();
    }
  }

  lemma NothingCounted()
    ensures Counted([])
  {
  }

  // ---------------------------------------------------------------- producers

  lemma {:induction false} WrittenIs(producers: map<Name, int>, o: Op, n: nat, t: Name)
    requires n <= |o.outputs| && o.id.Some?
    ensures var w := WrittenBy(producers, o, n);
      && (t in w <==> t in producers || t in o.outputs[..n])
      && (t in o.outputs[..n] ==> w[t] == o.id.value)
      && (t in producers && t !in o.outputs[..n] ==> w[t] == producers[t])
  {
    if n > 0 {
      WrittenIs(producers, o, n - 1, t);
      assert o.outputs[..n] == o.outputs[..n - 1] + [o.outputs[n - 1]];
    }
  }

  /** The last op that writes a tensor. */
  ghost predicate WrittenLast(ops: seq<Op>, t: Name, v: int) {
    exists j :: 0 <= j < |ops| && ops[j].id == Some(v) && t in ops[j].outputs
  }

  lemma {:induction false} ProducersAre(ops: seq<Op>, t: Name)
    requires HasIds(ops)
    ensures t in Producers(ops) <==> MadeBy(ops, t)
    ensures t in Producers(ops) ==> WrittenLast(ops, t, Producers(ops)[t])
  {
    if ops != [] {
      var n := |ops| - 1;
      var init, o := ops[..n], ops[n];
      assert ops == init + [o] && o in ops;
      assert HasIds(init) by { assert forall p :: p in init ==> p in ops; }
      ProducersAre(init, t);
      WrittenIs(Producers(init), o, |o.outputs|, t);
      assert o.outputs[..|o.outputs|] == o.outputs;
      if MadeBy(init, t) {
        var p :| p in init && t in p.outputs;
        assert p in ops;
      }
      if MadeBy(ops, t) && t !in o.outputs {
        var p :| p in ops && t in p.outputs;
        assert p in init;
      }
      if t in Producers(ops) && t !in o.outputs {
        var j :| 0 <= j < |init| && init[j].id == Some(Producers(init)[t]) && t in init[j].outputs;
        assert ops[j] == init[j];
      }
    }
  }

  // ---------------------------------------------------------------- the order of the restored list

  /** What op `n` reads comes from outside of the op it was restored from, or is made in the list. */
  ghost predicate ComesFrom(ops: seq<Op>, news: seq<Op>, k: nat, n: Op)
    requires k <= |ops|
  {
    exists j :: 0 <= j < k && forall t :: t in n.inputs ==> t in ops[j].inputs || MadeBy(news, t)
  }

  ghost predicate AllComeFrom(ops: seq<Op>, news: seq<Op>, k: nat)
    requires k <= |ops|
  {
    forall n :: n in news ==> ComesFrom(ops, news, k, n)
  }

  /** What op `o` makes, outside or inside. */
  ghost predicate MakesAnywhere(o: Op, t: Name) { t in o.outputs || MadeBy(o.subOps, t) }

  /** No op reads what it or a later op makes anywhere. */
  lemma NobodyReadsAhead(ops: seq<Op>, targets: set<int>, j: nat, k: nat, t: Name)
    requires Flows(ops) && NobodyReadsInside(ops, targets) && j <= k < |ops| && t in ops[j].inputs
    requires ops[k].id.Some? && ops[k].id.value in targets
    ensures !MakesAnywhere(ops[k], t)
  {
    assert ops[j] in ops && ops[k] in ops;
    assert MadeBy(ops[k].subOps, t) && t !in ops[k].outputs ==> WasInside(ops, targets, t);
  }

  /** The ops that stand for one op of the input. */
  ghost predicate StandFor(targets: set<int>, o: Op, restored: seq<Op>) {
    o.id.Some? &&
    if o.id.value in targets then SameWork(restored, o.subOps) else SameWork(restored, [o])
  }

  lemma StepStands(s: Pass, o: Op, targets: set<int>) returns (restored: seq<Op>)
    requires o.id.Some? && Step(s, o, targets).Ok?
    ensures Step(s, o, targets).value.ops == s.ops + restored && StandFor(targets, o, restored)
  {
    if o.id.value in targets {
      restored := PiecesRestore(s, o, o.id.value, ShapeOf(s.tensors, FirstOutput(o)), |o.subOps|);
    } else {
      restored := [o.(id := Some(s.next))];
    }
  }

  /** A stage reads what the op reads or what an earlier stage made. */
  lemma {:induction false} StageReads(ops: seq<Op>, known: iset<Name>, i: nat, t: Name)
    requires StagesContained(ops, known) && i < |ops| && t in ops[i].inputs
    ensures t in known || exists j :: 0 <= j < i && t in ops[j].outputs
    decreases |ops|
  {
    if i > 0 {
      StageReads(ops[1..], known + (iset x | x in ops[0].outputs), i - 1, t);
      if j :| 0 <= j < i - 1 && t in ops[1..][j].outputs {
        assert t in ops[j + 1].outputs;
      }
    }
  }

  lemma {:induction false} StageContained(ops: seq<Op>, known: iset<Name>, i: nat)
    requires StagesContained(ops, known) && i < |ops|
    ensures SelfContained(ops[i])
    decreases |ops|
  {
    if i > 0 {
      StageContained(ops[1..], known + (iset x | x in ops[0].outputs), i - 1);
    }
  }

  /** What one of them reads. */
  lemma RestoredReads(targets: set<int>, o: Op, restored: seq<Op>, i: nat, t: Name)
    requires StandFor(targets, o, restored) && SelfContained(o) && i < |restored| && t in restored[i].inputs
    requires o.id.value in targets ==> o.subOps != []
    ensures t in o.inputs || exists j :: 0 <= j < i && t in restored[j].outputs
  {
    if o.id.value in targets {
      assert StagesContained(o.subOps, iset x | x in o.inputs);
      hide StagesContained, SelfContained;
      StageReads(o.subOps, (iset x | x in o.inputs), i, t);
    }
  }

  lemma RestoredMakes(targets: set<int>, o: Op, restored: seq<Op>, i: nat, t: Name)
    requires StandFor(targets, o, restored) && i < |restored| && t in restored[i].outputs
    ensures if o.id.value in targets then MakesAnywhere(o, t) else t in o.outputs
  {
    if o.id.value in targets {
      assert o.subOps[i] in o.subOps;
    }
  }

  /** Nobody up to op k reads what its restored ops make, other than from one of them. */
  lemma NoReadAhead(ops: seq<Op>, targets: set<int>, j: nat, k: nat, restored: seq<Op>, i: nat, t: Name)
    requires Flows(ops) && NobodyReadsInside(ops, targets) && j <= k < |ops| && t in ops[j].inputs
    requires StandFor(targets, ops[k], restored) && i < |restored|
    ensures t !in restored[i].outputs
  {
    if t in restored[i].outputs {
      RestoredMakes(targets, ops[k], restored, i, t);
      if ops[k].id.value in targets {
        NobodyReadsAhead(ops, targets, j, k, t);
      }
    }
  }

  /** One more op restored behind a list in data-flow order. */
  lemma StepFlows(ops: seq<Op>, targets: set<int>, k: nat, news: seq<Op>, restored: seq<Op>)
    requires Flows(ops) && AllContained(ops) && NobodyReadsInside(ops, targets) && k < |ops|
    requires StandFor(targets, ops[k], restored) && (ops[k].id.value in targets ==> ops[k].subOps != [])
    requires Flows(news) && AllComeFrom(ops, news, k) && MadeOnce(news + restored)
    ensures Flows(news + restored)
  {
    var all := news + restored;
    assert ops[k] in ops && SelfContained(ops[k]);
    hide NobodyReadsInside, SelfContained, AllContained, StandFor;
    forall x, y, t | 0 <= x < |all| && 0 <= y < |all| && t in all[x].inputs && t in all[y].outputs
      ensures y < x
    {
      if y >= |news| {
        var b := y - |news|;
        if x < |news| {
          assert news[x] in news;
          var j :| 0 <= j < k && forall u :: u in news[x].inputs ==> u in ops[j].inputs || MadeBy(news, u);
          NotMadeBefore(news, restored, b, t);
          NoReadAhead(ops, targets, j, k, restored, b, t);
        } else {
          RestoredReads(targets, ops[k], restored, x - |news|, t);
          if t in ops[k].inputs {
            NoReadAhead(ops, targets, k, k, restored, b, t);
          } else {
            var a :| 0 <= a < x - |news| && t in restored[a].outputs;
            assert all[|news| + a] == restored[a];
          }
        }
      }
    }
  }

  lemma NotMadeBefore(news: seq<Op>, restored: seq<Op>, b: nat, t: Name)
    requires MadeOnce(news + restored) && b < |restored| && t in restored[b].outputs
    ensures !MadeBy(news, t)
  {
    var all := news + restored;
    forall p | p in news
      ensures t !in p.outputs
    {
      var i :| 0 <= i < |news| && news[i] == p;
      assert all[i] == p && all[|news| + b] == restored[b];
    }
  }

  lemma StepComesFrom(ops: seq<Op>, targets: set<int>, k: nat, news: seq<Op>, restored: seq<Op>)
    requires AllContained(ops) && k < |ops| && AllComeFrom(ops, news, k)
    requires StandFor(targets, ops[k], restored) && (ops[k].id.value in targets ==> ops[k].subOps != [])
    ensures AllComeFrom(ops, news + restored, k + 1)
  {
    var all := news + restored;
    assert ops[k] in ops && SelfContained(ops[k]);
    hide SelfContained, AllContained, StandFor;
    forall t | MadeBy(news, t)
      ensures MadeBy(all, t)
    {
      var p :| p in news && t in p.outputs;
      assert p in all;
    }
    forall n | n in all
      ensures ComesFrom(ops, all, k + 1, n)
    {
      if n in news {
        assert ComesFrom(ops, news, k, n);
        var j :| 0 <= j < k && forall t :: t in n.inputs ==> t in ops[j].inputs || MadeBy(news, t);
        assert j < k + 1;
      } else {
        var i :| 0 <= i < |restored| && restored[i] == n;
        forall t | t in n.inputs
          ensures t in ops[k].inputs || MadeBy(all, t)
        {
          RestoredReads(targets, ops[k], restored, i, t);
          if t !in ops[k].inputs {
            var a :| 0 <= a < i && t in restored[a].outputs;
            assert restored[a] in all;
          }
        }
      }
    }
  }

  lemma PrefixMadeOnce(a: seq<Op>, b: seq<Op>)
    requires MadeOnce(a + b)
    ensures MadeOnce(a)
  {
    var all := a + b;
    forall i, j, t | 0 <= i < |a| && 0 <= j < |a| && t in a[i].outputs && t in a[j].outputs
      ensures i == j
    {
      assert t in all[i].outputs && t in all[j].outputs;
    }
  }

  lemma {:induction false} StepsFlow(ops: seq<Op>, tensors: Tensors, targets: set<int>, n: nat)
    requires HasIds(ops) && Flows(ops) && AllContained(ops) && NobodyReadsInside(ops, targets) && n <= |ops|
    requires forall o :: o in ops && o.id.Some? && o.id.value in targets ==> o.subOps != []
    requires Steps(ops, tensors, targets, n).Ok? && MadeOnce(Steps(ops, tensors, targets, n).value.ops)
    ensures Flows(Steps(ops, tensors, targets, n).value.ops) && AllComeFrom(ops, Steps(ops, tensors, targets, n).value.ops, n)
    ensures AllContained(Steps(ops, tensors, targets, n).value.ops)
  {
    if n > 0 {
      var s, o := Steps(ops, tensors, targets, n - 1).value, ops[n - 1];
      assert o in ops;
      hide NobodyReadsInside, AllContained, Flows, Step, StandFor, AllComeFrom, MadeOnce, SelfContained;
      var restored := StepStands(s, o, targets);
      PrefixMadeOnce(s.ops, restored);
      StepsFlow(ops, tensors, targets, n - 1);
      StepFlows(ops, targets, n - 1, s.ops, restored);
      StepComesFrom(ops, targets, n - 1, s.ops, restored);
      StepContained(ops, targets, o, s.ops, restored);
    }
  }

  lemma StepContained(ops: seq<Op>, targets: set<int>, o: Op, news: seq<Op>, restored: seq<Op>)
    requires o in ops && AllContained(ops) && AllContained(news) && StandFor(targets, o, restored)
    requires o.id.value in targets ==> o.subOps != []
    ensures AllContained(news + restored)
  {
    assert SelfContained(o);
    forall i | 0 <= i < |restored|
      ensures SelfContained(restored[i])
    {
      if o.id.value in targets {
        StageContained(o.subOps, (iset t | t in o.inputs), i);
        SameContained(o.subOps[i], restored[i]);
      } else {
        SameContained([o][i], restored[i]);
      }
    }
  }

  lemma SameContained(a: Op, b: Op)
    requires SelfContained(a) && a.inputs == b.inputs && a.outputs == b.outputs && a.subOps == b.subOps
    ensures SelfContained(b)
  {
  }

  // ---------------------------------------------------------------- the dependencies

  /** In a list in data-flow order with counted ids, derived dependencies are data flow, and the list
      itself is an order they allow. */
  lemma RelinkedIsOrdered(news: seq<Op>)
    requires Counted(news) && Flows(news) && MadeOnce(news) && AllContained(news)
    ensures var r := RelinkAll(news); Dataflow(r) && Schedule(r, r)
  {
    var r := RelinkAll(news);
    hide SelfContained, Producers, Sorted;
    assert HasIds(news);
    forall i | 0 <= i < |news|
      ensures r[i].id == Some(i) && r[i].inputs == news[i].inputs && r[i].outputs == news[i].outputs && SelfContained(r[i])
      ensures forall d :: d in r[i].deps <==> d in DepSet(news[i], Producers(news))
    {
      assert news[i] in news;
      SameContained(news[i], r[i]);
    }
    hide RelinkAll, DepSet;
    forall i, j, t | 0 <= i < |r| && 0 <= j < |r| && t in r[i].inputs && t in r[j].outputs
      ensures r[j].id.value in r[i].deps
    {
      MakerInDeps(news, i, j, t);
    }
    forall i, j | 0 <= i < |r| && 0 <= j < |r| && r[j].id.value in r[i].deps
      ensures j < i
    {
      DepIsEarlier(news, i, j);
    }
    FlowsIn(r);
  }

  lemma FlowsIn(r: seq<Op>)
    requires forall i :: 0 <= i < |r| ==> r[i].id == Some(i)
    requires MadeOnce(r) && AllContained(r)
    requires forall i, j, t :: 0 <= i < |r| && 0 <= j < |r| && t in r[i].inputs && t in r[j].outputs ==> r[j].id.value in r[i].deps
    requires forall i, j :: 0 <= i < |r| && 0 <= j < |r| && r[j].id.value in r[i].deps ==> j < i
    ensures Dataflow(r) && Schedule(r, r)
  {
    hide SelfContained;
    forall o, p, t | o in r && p in r && t in o.inputs && t in p.outputs
      ensures p.id.Some? && p.id.value in o.deps
    {
      var i :| 0 <= i < |r| && r[i] == o;
      var j :| 0 <= j < |r| && r[j] == p;
    }
    forall o, p, t | o in r && p in r && t in o.outputs && t in p.outputs
      ensures o == p
    {
      var i :| 0 <= i < |r| && r[i] == o;
      var j :| 0 <= j < |r| && r[j] == p;
    }
  }

  lemma MakerInDeps(news: seq<Op>, i: nat, j: nat, t: Name)
    requires Counted(news) && Flows(news) && MadeOnce(news) && i < |news| && j < |news|
    requires t in news[i].inputs && t in news[j].outputs
    ensures j in DepSet(news[i], Producers(news))
  {
    assert HasIds(news) && news[j] in news;
    ProducersAre(news, t);
    var v := Producers(news)[t];
    var l :| 0 <= l < |news| && news[l].id == Some(v) && t in news[l].outputs;
    assert l == j && j < i;
  }

  lemma DepIsEarlier(news: seq<Op>, i: nat, j: nat)
    requires Counted(news) && Flows(news) && MadeOnce(news) && i < |news| && j < |news|
    requires j in DepSet(news[i], Producers(news))
    ensures j < i
  {
    assert HasIds(news);
    hide Producers;
    var t :| t in news[i].inputs && t in Producers(news) && Producers(news)[t] == j;
    ProducersAre(news, t);
    var l :| 0 <= l < |news| && news[l].id == Some(j) && t in news[l].outputs;
    assert l == j;
  }

  /** Unfusing a view-free graph in data-flow order, in which every tensor, inner ones included, is made
      once, leaves a graph whose dependencies allow an order; and every order they allow gives each
      tensor that did not live inside an unfused op its old value. */
  lemma UnfusedIsSchedulable(k: Kernels, ops: seq<Op>, tensors: Tensors, targets: set<int>, env: Env, sched: seq<Op>, t: Name)
    requires HasIds(ops) && Flows(ops) && AllContained(ops) && NobodyReadsInside(ops, targets)
    requires forall o :: o in ops && o.id.Some? && o.id.value in targets ==> Unfusable(o)
    requires Steps(ops, tensors, targets, |ops|).Ok? && MadeOnce(Steps(ops, tensors, targets, |ops|).value.ops)
    ensures var r := RelinkAll(Steps(ops, tensors, targets, |ops|).value.ops);
      && Dataflow(r) && Schedule(r, r)
      && (Schedule(r, sched) && !WasInside(ops, targets, t) ==> Read(Run(k, sched, env), t) == Read(Run(k, ops, env), t))
  {
    var r := RelinkAll(Steps(ops, tensors, targets, |ops|).value.ops);
    assert forall o :: o in ops && o.id.Some? && o.id.value in targets ==> o.subOps != [];
    hide *;
    StepsCount(ops, tensors, targets, |ops|);
    StepsFlow(ops, tensors, targets, |ops|);
    RelinkedIsOrdered(Steps(ops, tensors, targets, |ops|).value.ops);
    if Schedule(r, sched) && !WasInside(ops, targets, t) {
      UnfusingPreservesMeaning(k, ops, tensors, targets, env, t);
      DataflowParts(r);
      OrderDoesNotMatter(k, r, sched, r, env, t);
    }
  }

  lemma DataflowParts(r: seq<Op>)
    requires Dataflow(r)
    ensures FlowInDeps(r) && SingleMaker(r) && AllContained(r)
  {
  }
}
