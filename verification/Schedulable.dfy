/** Acyclic means schedulable: an order that respects the dependencies exists exactly when they have
    no cycle. */
module Schedulable {
  import opened Ir
  import opened Digraph
  import opened Fusion
  import opened FusionRewrite
  import opened Renumbering
  import opened Schedules
  import opened FusionMeaning

  /** Placed so far, in order; what a placed op depends on is placed before it. */
  ghost predicate Placed(ops: seq<Op>, placed: seq<Op>, left: set<int>) {
    && (forall o :: o in placed <==> o in ops && o.id.Some? && o.id.value !in left)
    && left <= ById(ops).Keys
    && DistinctIds(placed)
    && forall i, d :: 0 <= i < |placed| && d in placed[i].deps && d in ById(ops) ==> Before(placed, i, d)
  }

  ghost predicate Before(placed: seq<Op>, i: nat, d: int)
    requires i < |placed|
  {
    exists j :: 0 <= j < i && placed[j].id == Some(d)
  }

  /** Some op left over depends on none of those left over. */
  lemma SomeFree(ops: seq<Op>, left: set<int>) returns (x: int)
    requires left != {} && left <= ById(ops).Keys && Acyclic(DepGraph(ById(ops)))
    ensures x in left && forall d :: d in ById(ops)[x].deps ==> d !in left
  {
    var g := DepGraph(ById(ops));
    HasMember(left);
    var start :| start in left;
    if forall a :: a in left ==> DependsInto(g, a, left) {
      StuckSetHasCycle(g, left, start);
    }
    x :| x in left && !DependsInto(g, x, left);
    forall d | d in ById(ops)[x].deps
      ensures d !in left
    {
      assert d in left ==> Edge(g, x, d);
    }
  }

  lemma PlaceOne(ops: seq<Op>, placed: seq<Op>, left: set<int>, x: int)
    requires DistinctIds(ops) && Placed(ops, placed, left) && x in left && forall d :: d in ById(ops)[x].deps ==> d !in left
    ensures Placed(ops, placed + [ById(ops)[x]], left - {x})
  {
    var o := ById(ops)[x];
    var more := placed + [o];
    KeyOf(ops, x);
    forall p
      ensures p in more <==> p in ops && p.id.Some? && p.id.value !in left - {x}
    {
      if p in ops && p.id == Some(x) {
        InOps(ops, p);
      }
    }
    forall i, d | 0 <= i < |more| && d in more[i].deps && d in ById(ops)
      ensures Before(more, i, d)
    {
      if i < |placed| {
        assert Before(placed, i, d);
        var j :| 0 <= j < i && placed[j].id == Some(d);
        assert more[j].id == Some(d);
      } else {
        KeyOf(ops, d);
        assert ById(ops)[d] in placed;
        var j :| 0 <= j < |placed| && placed[j] == ById(ops)[d];
        assert more[j].id == Some(d);
      }
    }
  }

  lemma {:induction false} PlaceAll(ops: seq<Op>, placed: seq<Op>, left: set<int>) returns (sched: seq<Op>)
    requires DistinctIds(ops) && Placed(ops, placed, left) && Acyclic(DepGraph(ById(ops)))
    ensures Placed(ops, sched, {})
    decreases |left|
  {
    if left == {} {
      sched := placed;
    } else {
      var x := SomeFree(ops, left);
      PlaceOne(ops, placed, left, x);
      sched := PlaceAll(ops, placed + [ById(ops)[x]], left - {x});
    }
  }

  lemma PlacedIsSchedule(ops: seq<Op>, sched: seq<Op>)
    requires DistinctIds(ops) && Placed(ops, sched, {})
    ensures Schedule(ops, sched)
  {
    forall o
      ensures o in sched <==> o in ops
    {
    }
    forall i, j | 0 <= i < |sched| && 0 <= j < |sched| && sched[j].id.Some? && sched[j].id.value in sched[i].deps
      ensures j < i
    {
      var d := sched[j].id.value;
      assert sched[j] in ops;
      InOps(ops, sched[j]);
      assert Before(sched, i, d);
      var k :| 0 <= k < i && sched[k].id == Some(d);
    }
  }

  ghost function Position(sched: seq<Op>, x: int): int {
    if exists i :: 0 <= i < |sched| && sched[i].id == Some(x) then
      var i :| 0 <= i < |sched| && sched[i].id == Some(x);
      i
    else -1
  }

  lemma ScheduleIsAcyclic(ops: seq<Op>, sched: seq<Op>)
    requires DistinctIds(ops) && Schedule(ops, sched)
    ensures Acyclic(DepGraph(ById(ops)))
  {
    var g := DepGraph(ById(ops));
    forall a, b | Edge(g, a, b)
      ensures Position(sched, b) < Position(sched, a)
    {
      KeyOf(ops, a);
      KeyOf(ops, b);
      assert ById(ops)[a] in sched && ById(ops)[b] in sched;
      var i :| 0 <= i < |sched| && sched[i] == ById(ops)[a];
      var j :| 0 <= j < |sched| && sched[j] == ById(ops)[b];
      assert Position(sched, a) == i && Position(sched, b) == j;
    }
    RankedIsAcyclic(g, (x: int) => Position(sched, x));
  }

  /** An order that respects the dependencies exists exactly when they have no cycle. */
  lemma SchedulableIffAcyclic(ops: seq<Op>)
    requires DistinctIds(ops)
    ensures (exists sched :: Schedule(ops, sched)) <==> Acyclic(DepGraph(ById(ops)))
  {
    if sched :| Schedule(ops, sched) {
      ScheduleIsAcyclic(ops, sched);
    }
    if Acyclic(DepGraph(ById(ops))) {
      forall o | o in ops
        ensures o.id.Some? && o.id.value in ById(ops).Keys
      {
        InOps(ops, o);
      }
      var sched := PlaceAll(ops, [], ById(ops).Keys);
      PlacedIsSchedule(ops, sched);
    }
  }

  /** After fusing one accepted group of a schedulable data-flow graph there is an order, and every
      such order keeps the values of all tensors that are not hidden. */
  lemma OneGroupFusionWorks(k: Kernels, job: Job, group: seq<int>, given: Env, before: seq<Op>)
    requires Dataflow(job.ops) && job.groups == [group] && Valid(group, ById(job.ops)) && Schedule(job.ops, before)
    requires WellGrouped(job) && Rewrite(job).Ok?
    ensures exists after :: Schedule(FusionMeaning.Result(job), after)
    ensures forall after, t :: Schedule(FusionMeaning.Result(job), after) && !Hidden(job, t) ==>
      Read(Run(k, before, given), t) == Read(Run(k, after, given), t)
  {
    assert Fusible(job);
    FusibleParts(job);
    FusibleIsReady(job);
    ResultIsDataflow(job);
    hide Dataflow, Valid, Fusible, ById, Rewrite, Hidden, Run, Schedule, Acyclic, DepGraph;
    ScheduleIsAcyclic(job.ops, before);
    OneGroupStaysSchedulable(job, group);
    ResultIds(job);
    SchedulableIffAcyclic(FusionMeaning.Result(job));
    forall after, t | Schedule(FusionMeaning.Result(job), after) && !Hidden(job, t)
      ensures Read(Run(k, before, given), t) == Read(Run(k, after, given), t)
    {
      FusionPreservesMeaning(k, job, given, before, after, t);
    }
  }
}
