/** Running a list with tiles in it (pipeline/apply_split_hint.py).

    After a split no op makes the split tensor any more; its readers see the join of its tiles. As
    for plain lists, a run in data-flow order solves the list's equations and they have one solution. */
module SplitRuns {
  import opened Ir
  import opened Names
  import opened Schedules
  import T = Tiles
  import opened SplitKernels

  /** How a tensor is put together from its tiles. */
  datatype Join = Join(tiles: nat, outer: nat, width: nat, inner: nat)

  type Joins = map<Name, Join>

  function PartsOf(j: Join, t: Name, e: Env): (parts: seq<seq<int>>)
    ensures |parts| == j.tiles && forall i :: 0 <= i < j.tiles ==> parts[i] == Ints(Read(e, TileName(t, i)))
  {
    seq(j.tiles, i requires 0 <= i < j.tiles => Ints(Read(e, TileName(t, i))))
  }

  function JoinedValue(j: Join, t: Name, e: Env): Value {
    if j.width == 0 then []
    else Nums(T.Laid(j.outer, j.tiles * j.width, j.inner, T.Joined(PartsOf(j, t, e), j.width, j.inner)))
  }

  /** What a reader sees. */
  function Viewed(joins: Joins, e: Env): Env {
    map t | t in e.Keys + joins.Keys :: if t in joins then JoinedValue(joins[t], t, e) else e[t]
  }

  lemma ViewedReads(joins: Joins, e: Env, t: Name)
    ensures Read(Viewed(joins, e), t) == if t in joins then JoinedValue(joins[t], t, e) else Read(e, t)
  {
    hide JoinedValue;
  }

  /** An op is called with its recorded offset. */
  function RunOp(k: Located, joins: Joins, o: Op, e: Env): Env {
    Write(e, o.outputs, ReadAll(Exec(k(OffsetOf(o)), o, Viewed(joins, e)), o.outputs))
  }

  function RunTiled(k: Located, joins: Joins, ops: seq<Op>, e: Env): Env {
    if ops == [] then e else RunOp(k, joins, ops[|ops| - 1], RunTiled(k, joins, ops[..|ops| - 1], e))
  }

  lemma RunOpReads(k: Located, joins: Joins, o: Op, e: Env, t: Name)
    ensures t in o.outputs ==> Read(RunOp(k, joins, o, e), t) == Read(Exec(k(OffsetOf(o)), o, Viewed(joins, e)), t)
    ensures t !in o.outputs ==> Read(RunOp(k, joins, o, e), t) == Read(e, t)
  {
    var f := Exec(k(OffsetOf(o)), o, Viewed(joins, e));
    if t in o.outputs {
      WriteRead(e, f, o.outputs, t);
    } else {
      WriteReads(e, o.outputs, ReadAll(f, o.outputs), t);
    }
  }

  /** Without tiles this is the ordinary run. */
  lemma {:induction false} PlainRun(k: Located, ops: seq<Op>, e: Env, t: Name)
    requires AllContained(ops) && forall o :: o in ops ==> !o.origin.Tile?
    ensures Read(RunTiled(k, map[], ops, e), t) == Read(Run(k(0), ops, e), t)
  {
    if ops != [] {
      var init, o := ops[..|ops| - 1], ops[|ops| - 1];
      var e1, e2 := RunTiled(k, map[], init, e), Run(k(0), init, e);
      forall x
        ensures Read(e1, x) == Read(e2, x)
      {
        PlainRun(k, init, e, x);
      }
      RunLast(k(0), ops, e);
      RunOpReads(k, map[], o, e1, t);
      assert o in ops && OffsetOf(o) == 0;
      hide Run, Exec, RunOp, SelfContained;
      forall x
        ensures Read(Viewed(map[], e1), x) == Read(e2, x)
      {
        ViewedReads(map[], e1, x);
      }
      ExecAgrees(k(0), o, Viewed(map[], e1), e2);
      if t !in o.outputs {
        ExecFrame(k(0), o, e2, t);
      }
    }
  }

  // ---------------------------------------------------------------- data flow through joins

  /** Reading `t` directly or as a tile of something joined. */
  ghost predicate Needs(joins: Joins, o: Op, t: Name) {
    t in o.inputs || exists p, i: nat :: TileOfInput(joins, o, p, i) && t == TileName(p, i)
  }

  ghost predicate TileOfInput(joins: Joins, o: Op, p: Name, i: nat) {
    p in o.inputs && p in joins && i < joins[p].tiles
  }

  ghost predicate FlowsAt(joins: Joins, sched: seq<Op>) {
    forall i, j, t :: 0 <= i < |sched| && 0 <= j < |sched| && Needs(joins, sched[i], t) && t in sched[j].outputs ==> j < i
  }

  lemma ViewedAgrees(joins: Joins, o: Op, e1: Env, e2: Env)
    requires forall t :: Needs(joins, o, t) ==> Read(e1, t) == Read(e2, t)
    ensures Agree(Viewed(joins, e1), Viewed(joins, e2), iset t | t in o.inputs)
  {
    forall t | t in o.inputs
      ensures Read(Viewed(joins, e1), t) == Read(Viewed(joins, e2), t)
    {
      ViewedReads(joins, e1, t);
      ViewedReads(joins, e2, t);
      if t in joins {
        JoinAgrees(joins, o, t, e1, e2);
      }
    }
  }

  lemma JoinAgrees(joins: Joins, o: Op, p: Name, e1: Env, e2: Env)
    requires p in o.inputs && p in joins && forall t :: Needs(joins, o, t) ==> Read(e1, t) == Read(e2, t)
    ensures JoinedValue(joins[p], p, e1) == JoinedValue(joins[p], p, e2)
  {
    hide TileName;
    forall i: nat | i < joins[p].tiles
      ensures Read(e1, TileName(p, i)) == Read(e2, TileName(p, i))
    {
      assert TileOfInput(joins, o, p, i);
      assert Needs(joins, o, TileName(p, i));
    }
    assert PartsOf(joins[p], p, e1) == PartsOf(joins[p], p, e2);
  }

  // ---------------------------------------------------------------- equations

  ghost predicate HoldsAt(k: Located, joins: Joins, o: Op, e: Env) {
    forall t :: t in o.outputs ==> Read(e, t) == Read(Exec(k(OffsetOf(o)), o, Viewed(joins, e)), t)
  }

  ghost predicate SolvesAt(k: Located, joins: Joins, ops: seq<Op>, given: Env, e: Env) {
    && (forall o :: o in ops ==> HoldsAt(k, joins, o, e))
    && (forall t :: !MadeBy(ops, t) ==> Read(e, t) == Read(given, t))
  }

  lemma HoldsStays(k: Located, joins: Joins, o: Op, e1: Env, e2: Env)
    requires SelfContained(o) && HoldsAt(k, joins, o, e1)
    requires forall t :: Needs(joins, o, t) || t in o.outputs ==> Read(e1, t) == Read(e2, t)
    ensures HoldsAt(k, joins, o, e2)
  {
    hide Exec, SelfContained, Needs, Viewed;
    ViewedAgrees(joins, o, e1, e2);
    ExecAgrees(k(OffsetOf(o)), o, Viewed(joins, e1), Viewed(joins, e2));
  }

  /** One more op of a run solves its own equation and leaves the earlier ones solved. */
  lemma NextSolves(k: Located, joins: Joins, sched: seq<Op>, env: Env, before: Env)
    requires sched != [] && FlowsAt(joins, sched) && MadeOnce(sched) && AllContained(sched)
    requires SolvesAt(k, joins, sched[..|sched| - 1], env, before)
    ensures SolvesAt(k, joins, sched, env, RunOp(k, joins, sched[|sched| - 1], before))
  {
    hide RunOp, Exec, SelfContained, Needs, HoldsAt, FlowsAt, MadeOnce, AllContained;
    var n := |sched| - 1;
    var init, o, after := sched[..n], sched[n], RunOp(k, joins, sched[n], before);
    assert sched == init + [o];
    forall p | p in sched
      ensures HoldsAt(k, joins, p, after)
    {
      if p in init {
        var i :| 0 <= i < n && init[i] == p;
        EarlierHolds(k, joins, sched, i, before);
      } else {
        LastHolds(k, joins, sched, before);
      }
    }
    forall t | !MadeBy(sched, t)
      ensures Read(after, t) == Read(env, t)
    {
      RunOpReads(k, joins, o, before, t);
      NotMadeBefore(sched, t);
    }
  }

  lemma NotMadeBefore(sched: seq<Op>, t: Name)
    requires sched != [] && !MadeBy(sched, t)
    ensures !MadeBy(sched[..|sched| - 1], t) && t !in sched[|sched| - 1].outputs
  {
    assert forall o :: o in sched[..|sched| - 1] ==> o in sched;
  }

  /** A run in data-flow order solves the equations. */
  lemma {:induction false} TiledRunSolves(k: Located, joins: Joins, sched: seq<Op>, env: Env)
    requires FlowsAt(joins, sched) && MadeOnce(sched) && AllContained(sched)
    ensures SolvesAt(k, joins, sched, env, RunTiled(k, joins, sched, env))
  {
    hide FlowsAt, MadeOnce, AllContained, HoldsAt, RunOp;
    if sched != [] {
      InitFlows(joins, sched);
      TiledRunSolves(k, joins, sched[..|sched| - 1], env);
      NextSolves(k, joins, sched, env, RunTiled(k, joins, sched[..|sched| - 1], env));
    }
  }

  lemma InitFlows(joins: Joins, sched: seq<Op>)
    requires sched != [] && FlowsAt(joins, sched) && MadeOnce(sched) && AllContained(sched)
    ensures var init := sched[..|sched| - 1]; FlowsAt(joins, init) && MadeOnce(init) && AllContained(init)
  {
    hide Needs, SelfContained;
  }

  lemma EarlierHolds(k: Located, joins: Joins, sched: seq<Op>, i: nat, before: Env)
    requires FlowsAt(joins, sched) && MadeOnce(sched) && AllContained(sched) && i < |sched| - 1 && HoldsAt(k, joins, sched[i], before)
    ensures HoldsAt(k, joins, sched[i], RunOp(k, joins, sched[|sched| - 1], before))
  {
    var o, p := sched[|sched| - 1], sched[i];
    hide Exec, SelfContained, Needs, RunOp, HoldsAt;
    var after := RunOp(k, joins, o, before);
    forall t | Needs(joins, p, t) || t in p.outputs
      ensures Read(before, t) == Read(after, t)
    {
      assert t !in o.outputs;
      RunOpReads(k, joins, o, before, t);
    }
    assert SelfContained(p);
    HoldsStays(k, joins, p, before, after);
  }

  lemma LastHolds(k: Located, joins: Joins, sched: seq<Op>, before: Env)
    requires FlowsAt(joins, sched) && AllContained(sched) && sched != []
    ensures HoldsAt(k, joins, sched[|sched| - 1], RunOp(k, joins, sched[|sched| - 1], before))
  {
    var o := sched[|sched| - 1];
    hide Exec, SelfContained, Needs, RunOp, Viewed;
    var after := RunOp(k, joins, o, before);
    forall t | Needs(joins, o, t)
      ensures Read(before, t) == Read(after, t)
    {
      assert t !in o.outputs;
      RunOpReads(k, joins, o, before, t);
    }
    assert SelfContained(o);
    ViewedAgrees(joins, o, before, after);
    ExecAgrees(k(OffsetOf(o)), o, Viewed(joins, before), Viewed(joins, after));
    forall t | t in o.outputs
      ensures Read(after, t) == Read(Exec(k(OffsetOf(o)), o, Viewed(joins, after)), t)
    {
      RunOpReads(k, joins, o, before, t);
    }
  }

  lemma {:induction false} TiledAgreeUpTo(k: Located, joins: Joins, sched: seq<Op>, given: Env, e1: Env, e2: Env, i: nat)
    requires FlowsAt(joins, sched) && AllContained(sched) && i < |sched|
    requires SolvesAt(k, joins, sched, given, e1) && SolvesAt(k, joins, sched, given, e2)
    ensures forall t :: t in sched[i].outputs ==> Read(e1, t) == Read(e2, t)
  {
    hide Exec, SelfContained, Needs, Viewed;
    var o := sched[i];
    assert o in sched && HoldsAt(k, joins, o, e1) && HoldsAt(k, joins, o, e2) && SelfContained(o);
    forall t | Needs(joins, o, t)
      ensures Read(e1, t) == Read(e2, t)
    {
      if MadeBy(sched, t) {
        var p :| p in sched && t in p.outputs;
        var j :| 0 <= j < |sched| && sched[j] == p;
        TiledAgreeUpTo(k, joins, sched, given, e1, e2, j);
      }
    }
    ViewedAgrees(joins, o, e1, e2);
    ExecAgrees(k(OffsetOf(o)), o, Viewed(joins, e1), Viewed(joins, e2));
  }

  /** The equations have one solution. */
  lemma TiledSolutionIsUnique(k: Located, joins: Joins, sched: seq<Op>, given: Env, e1: Env, e2: Env, t: Name)
    requires FlowsAt(joins, sched) && AllContained(sched)
    requires SolvesAt(k, joins, sched, given, e1) && SolvesAt(k, joins, sched, given, e2)
    ensures Read(e1, t) == Read(e2, t)
  {
    if MadeBy(sched, t) {
      var p :| p in sched && t in p.outputs;
      var j :| 0 <= j < |sched| && sched[j] == p;
      TiledAgreeUpTo(k, joins, sched, given, e1, e2, j);
    }
  }

  lemma SolvesAtMoves(k: Located, joins: Joins, a: seq<Op>, b: seq<Op>, given: Env, e: Env)
    requires (forall o :: o in a <==> o in b) && SolvesAt(k, joins, a, given, e)
    ensures SolvesAt(k, joins, b, given, e)
  {
    hide HoldsAt;
    forall t
      ensures MadeBy(a, t) <==> MadeBy(b, t)
    {
    }
  }

  // ---------------------------------------------------------------- lists that can be run in any order

  ghost predicate FlowInDepsAt(joins: Joins, ops: seq<Op>) {
    forall o, p, t :: o in ops && p in ops && Needs(joins, o, t) && t in p.outputs ==> p.id.Some? && p.id.value in o.deps
  }

  ghost predicate TileOf(joins: Joins, p: Name, i: nat) {
    p in joins && i < joins[p].tiles
  }

  /** No op makes what is joined, and only tiles make what it is joined from. */
  ghost predicate JoinsKept(joins: Joins, ops: seq<Op>) {
    && (forall o, t :: o in ops && t in o.outputs ==> t !in joins)
    && (forall o, p, i: nat :: o in ops && TileOf(joins, p, i) && TileName(p, i) in o.outputs ==> o.origin.Tile?)
  }

  /** Every dependency is declared, through joins too, and every tensor has one maker. */
  ghost predicate Runnable(joins: Joins, ops: seq<Op>) {
    DistinctIds(ops) && FlowInDepsAt(joins, ops) && SingleMaker(ops) && AllContained(ops) && JoinsKept(joins, ops)
  }

  /** Without joins this is plain data flow. */
  lemma PlainIsRunnable(ops: seq<Op>)
    requires Dataflow(ops)
    ensures Runnable(map[], ops)
  {
    hide SelfContained;
    forall o, p, t | o in ops && p in ops && Needs(map[], o, t) && t in p.outputs
      ensures p.id.Some? && p.id.value in o.deps
    {
      assert t in o.inputs;
    }
  }

  lemma ScheduleFlowsAt(joins: Joins, ops: seq<Op>, sched: seq<Op>)
    requires Runnable(joins, ops) && Schedule(ops, sched)
    ensures FlowsAt(joins, sched) && MadeOnce(sched) && AllContained(sched)
  {
    hide SelfContained, Needs;
    forall i, j, t | 0 <= i < |sched| && 0 <= j < |sched| && Needs(joins, sched[i], t) && t in sched[j].outputs
      ensures j < i
    {
      assert sched[i] in ops && sched[j] in ops;
    }
    forall i, j, t | 0 <= i < |sched| && 0 <= j < |sched| && t in sched[i].outputs && t in sched[j].outputs
      ensures i == j
    {
      assert sched[i] in ops && sched[j] in ops;
      assert sched[i].id == sched[j].id;
    }
  }

  /** Every order that the dependencies allow gives readers the same. */
  lemma TiledOrderDoesNotMatter(k: Located, joins: Joins, ops: seq<Op>, s1: seq<Op>, s2: seq<Op>, env: Env, t: Name)
    requires Runnable(joins, ops) && Schedule(ops, s1) && Schedule(ops, s2)
    ensures Read(RunTiled(k, joins, s1, env), t) == Read(RunTiled(k, joins, s2, env), t)
  {
    ScheduleFlowsAt(joins, ops, s1);
    ScheduleFlowsAt(joins, ops, s2);
    hide RunTiled, FlowsAt, AllContained, Runnable, MadeOnce, SolvesAt;
    TiledRunSolves(k, joins, s1, env);
    TiledRunSolves(k, joins, s2, env);
    SolvesAtMoves(k, joins, s2, s1, env, RunTiled(k, joins, s2, env));
    TiledSolutionIsUnique(k, joins, s1, env, RunTiled(k, joins, s1, env), RunTiled(k, joins, s2, env), t);
  }

  lemma SameRead(joins: Joins, e1: Env, e2: Env, t: Name)
    requires forall x :: Read(e1, x) == Read(e2, x)
    ensures Read(Viewed(joins, e1), t) == Read(Viewed(joins, e2), t)
  {
    ViewedReads(joins, e1, t);
    ViewedReads(joins, e2, t);
    if t in joins {
      assert PartsOf(joins[t], t, e1) == PartsOf(joins[t], t, e2);
    }
  }
}
