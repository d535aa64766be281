/** Concrete inputs on which the fusion rewriter does not do what a caller may expect
    (pipeline/apply_fusion_hint.py). */
module RewriteCases {
  import opened Ir
  import opened Digraph
  import opened Contraction
  import opened Fusion
  import opened FusionRewrite
  import opened Renumbering

  function Numbered(id: int, deps: seq<int>, origin: Origin): Op {
    Op("op", Body("relu_s8", map[], map[], map[]), [], [], [], [], Some(id), deps, None, origin, map[])
  }

  // ---------------------------------------------------------------- two accepted groups, one cycle

  /** 1 depends on 0 and 3 on 2 inside the groups [0, 1] and [2, 3]; 3 -> 0 and 1 -> 2 run across. */
  function ClashJob(): Job {
    Job("net", [Numbered(0, [], Original), Numbered(2, [], Original), Numbered(1, [0, 2], Original), Numbered(3, [2, 0], Original)],
        [[0, 1], [2, 3]], {})
  }

  lemma ClashIds()
    ensures var byId := ById(ClashJob().ops);
      && byId.Keys == {0, 1, 2, 3}
      && byId[0] == ClashJob().ops[0] && byId[2] == ClashJob().ops[1] && byId[1] == ClashJob().ops[2] && byId[3] == ClashJob().ops[3]
  {
    var ops := ClashJob().ops;
    assert ops[..3] == [ops[0], ops[1], ops[2]] && ops[..3][..2] == [ops[0], ops[1]];
    assert [ops[0], ops[1]][..1] == [ops[0]] && [ops[0]][..0] == [];
    assert ById([]) == map[];
    assert ById([ops[0]]) == map[0 := ops[0]];
    assert ById([ops[0], ops[1]]) == map[0 := ops[0], 2 := ops[1]];
    assert ById([ops[0], ops[1], ops[2]]) == map[0 := ops[0], 2 := ops[1], 1 := ops[2]];
  }

  lemma ClashDeps()
    ensures Before(ClashJob()) == ClashGraph()
  {
    ClashIds();
    hide ById;
    var g, h := Before(ClashJob()), ClashGraph();
    assert g.Keys == h.Keys;
    assert g[0] == h[0] && g[1] == h[1] && g[2] == h[2] && g[3] == h[3];
  }

  lemma PairIsValid(byId: map<int, Op>, a: int, b: int)
    requires a in byId && b in byId && a != b && Closed(DepGraph(byId), {a, b})
    requires a !in byId[a].deps && b !in byId[a].deps && b !in byId[b].deps
    ensures Valid([a, b], byId)
  {
    var group := [a, b];
    assert AsSet(group) == {a, b};
    hide Closed, AsSet;
    forall i, d | MemberDep(group, byId, i, d)
      ensures d in group[..i]
    {
      assert i == 1 && group[..1] == [a];
    }
  }

  /** Each of the two groups is accepted. */
  lemma ClashIsValid()
    ensures Valid([0, 1], ById(ClashJob().ops)) && Valid([2, 3], ById(ClashJob().ops))
  {
    ClashIds();
    ClashDeps();
    ClosedGroupsCanClash();
    var byId := ById(ClashJob().ops);
    assert DepGraph(byId) == ClashGraph();
    hide ById, Closed, Acyclic, Contract, Valid, DepGraph;
    PairIsValid(byId, 0, 1);
    PairIsValid(byId, 2, 3);
  }

  lemma ClashGroups()
    ensures var groups := ClashJob().groups; NonEmptyGroups(groups) && SetsOf(groups) == [{0, 1}, {2, 3}] && Heads(groups) == [0, 2]
    ensures forall g :: g in ClashJob().groups ==> g == [0, 1] || g == [2, 3]
  {
    var groups := ClashJob().groups;
    assert AsSet([0, 1]) == {0, 1} && AsSet([2, 3]) == {2, 3};
    assert groups == [[0, 1], [2, 3]];
    hide AsSet;
    assert MinOf([0, 1]) == 0 && MinOf([2, 3]) == 2;
  }

  lemma ClashReady()
    ensures Ready(ClashJob()) && Rewritable(ClashJob()) && Rewrite(ClashJob()).Ok?
  {
    ClashIds();
    var job := ClashJob();
    assert AsSet([0, 1]) == {0, 1} && AsSet([2, 3]) == {2, 3};
    hide ById, Rewrite;
    assert forall g :: g in job.groups ==> g == [0, 1] || g == [2, 3];
    RewriteSucceedsIff(job);
  }

  /** Both groups pass validation and the rewrite succeeds, and the dependencies of its result have a
      cycle. */
  lemma AcceptedGroupsCanClash()
    ensures var job := ClashJob();
      && (forall g :: g in job.groups ==> Valid(g, ById(job.ops))) && Acyclic(Before(job))
      && WellGrouped(job) && Rewrite(job).Ok? && !Acyclic(After(job))
  {
    hide *;
    var job := ClashJob();
    ClashGroups();
    ClashIsValid();
    ClashReady();
    ReadyParts(job);
    ClashDeps();
    ClosedGroupsCanClash();
    ResultSchedulableIff(job);
    JointContractionIsExact(ClashGraph(), SetsOf(job.groups), Heads(job.groups));
  }

  // ---------------------------------------------------------------- fusing twice

  /** Op 0 comes from an earlier fusion and is in no group. */
  function RefusedJob(): Job {
    Job("net", [Numbered(0, [], Fused([0, 1], [])), Numbered(1, [0], Original)], [[1]], {})
  }

  /** The group is fine, but the op fused earlier has no dependencies on record: the rewrite fails. */
  lemma EarlierFusionFails()
    ensures var job := RefusedJob(); Valid([1], ById(job.ops)) && WellGrouped(job) && Rewrite(job).Err?
  {
    var job := RefusedJob();
    var ops := job.ops;
    assert ops[..1] == [ops[0]] && [ops[0]][..0] == [];
    assert ById([]) == map[];
    assert ById([ops[0]]) == map[0 := ops[0]];
    assert ById(ops) == map[0 := ops[0], 1 := ops[1]];
    SingletonIsValid(ById(ops));
    assert GroupFor(job.groups, 0).None?;
    hide ById, Rewrite, Valid;
    RewriteSucceedsIff(job);
  }

  lemma SingletonIsValid(byId: map<int, Op>)
    requires 0 in byId && 1 in byId && byId[0].deps == [] && byId[1].deps == [0] && byId.Keys == {0, 1}
    ensures Valid([1], byId)
  {
    var g := DepGraph(byId);
    assert AsSet([1]) == {1};
    forall x
      ensures !Trapped(g, {1}, x)
    {
      if Trapped(g, {1}, x) {
        RankedIsAcyclic(g, (n: int) => n);
        ReachesTransitive(g, x, 1, x);
      }
    }
  }
}
