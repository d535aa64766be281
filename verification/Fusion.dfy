/** The fusion rewriter (pipeline/apply_fusion_hint.py): which groups of ops may be fused.

    A hint lists groups of dispatch ids; each group collapses into one op, downstream ops are
    rewired and ids reassigned. This module has the reachability loop, the validation of a group
    and the splitting of a group into pairs, each proved against the graph facts of
    Contraction; FusionRewrite has the rewrite itself. */
module Fusion {
  import opened Ir
  import opened Digraph
  import opened Contraction
  import opened Seqs

  datatype FusionError =
    | EmptyGroup
    | DuplicateIds
    | UnknownIds
    | NotTopological
    | NotClosed(op: int, descendsFrom: int, ancestorOf: int)
    | Overlapping
    | MissingKey(key: int)

  lemma HasMember(s: set<int>)
    requires s != {}
    ensures exists x :: x in s
  {
    assert (forall x :: x !in s) ==> s == {};
  }

  // ---------------------------------------------------------------- the dependency graph

  /** Ops by dispatch id; the last one wins, view ops are left out. */
  function ById(ops: seq<Op>): map<int, Op> {
    if ops == [] then map[]
    else
      var o := ops[|ops| - 1];
      if o.id.Some? then ById(ops[..|ops| - 1])[o.id.value := o] else ById(ops[..|ops| - 1])
  }

  function DepGraph(byId: map<int, Op>): Deps {
    map i | i in byId :: set d | d in byId[i].deps
  }

  type Adjacency = map<int, seq<int>>

  function AsGraph(edges: Adjacency): Deps {
    map n | n in edges :: set m | m in edges[n]
  }

  ghost predicate Reversed(g: Deps, h: Deps) {
    forall a, b :: Edge(g, a, b) <==> Edge(h, b, a)
  }

  lemma ReversedReaches(g: Deps, h: Deps, a: int, b: int)
    requires Reversed(g, h) && Reaches(g, a, b)
    ensures Reaches(h, b, a)
  {
    var p :| PathFromTo(g, p, a, b);
    var q := seq(|p|, i requires 0 <= i < |p| => p[|p| - 1 - i]);
    forall i | 0 <= i < |q| - 1
      ensures Edge(h, q[i], q[i + 1])
    {
      assert Edge(g, p[|p| - 2 - i], p[|p| - 2 - i + 1]);
    }
    assert PathFromTo(h, q, b, a);
  }

  /** What `pred` lists: the dependencies among known ops, of all ops done and, of op `part`, those
      among `deps`. Dangling ones are dropped. */
  ghost predicate ListsPred(byId: map<int, Op>, done: set<int>, part: int, deps: seq<int>, pred: Adjacency) {
    && pred.Keys == byId.Keys
    && (forall a, b :: a in byId && b in pred[a] ==> b in byId)
    && (forall a, b :: a in byId && b in byId ==> (b in pred[a] <==> (a in done && b in byId[a].deps) || (a == part && b in deps)))
  }

  ghost predicate Mirror(pred: Adjacency, succ: Adjacency) {
    && succ.Keys == pred.Keys
    && (forall a, b :: b in succ && a in succ[b] ==> a in pred && b in pred[a])
    && (forall a, b :: a in pred && b in pred[a] ==> b in succ && a in succ[b])
  }

  lemma ListOne(byId: map<int, Op>, done: set<int>, id: int, deps: seq<int>, dep: int, pred: Adjacency)
    requires ListsPred(byId, done, id, deps, pred) && id in byId
    ensures dep in byId ==> ListsPred(byId, done, id, deps + [dep], pred[id := pred[id] + [dep]])
    ensures dep !in byId ==> ListsPred(byId, done, id, deps + [dep], pred)
  {
  }

  lemma MirrorOne(pred: Adjacency, succ: Adjacency, id: int, dep: int)
    requires Mirror(pred, succ) && id in pred && dep in succ
    ensures Mirror(pred[id := pred[id] + [dep]], succ[dep := succ[dep] + [id]])
  {
  }

  method AddDeps(byId: map<int, Op>, ghost done: set<int>, id: int, succ0: Adjacency, pred0: Adjacency)
    returns (succ: Adjacency, pred: Adjacency)
    requires id in byId && ListsPred(byId, done, id, [], pred0) && Mirror(pred0, succ0)
    ensures ListsPred(byId, done + {id}, id, [], pred) && Mirror(pred, succ)
  {
    hide ListsPred, Mirror;
    succ, pred := succ0, pred0;
    var deps := byId[id].deps;
    assert deps[..0] == [];
    for n := 0 to |deps|
      invariant ListsPred(byId, done, id, deps[..n], pred) && Mirror(pred, succ)
    {
      var dep := deps[n];
      assert deps[..n + 1] == deps[..n] + [dep];
      ListsKeys(byId, done, id, deps[..n], pred, succ);
      ListOne(byId, done, id, deps[..n], dep, pred);
      if dep in byId {
        MirrorOne(pred, succ, id, dep);
        pred := pred[id := pred[id] + [dep]];
        succ := succ[dep := succ[dep] + [id]];
      }
    }
    assert deps[..|deps|] == deps;
    ListsDone(byId, done, id, pred);
  }

  lemma ListsKeys(byId: map<int, Op>, done: set<int>, id: int, deps: seq<int>, pred: Adjacency, succ: Adjacency)
    requires ListsPred(byId, done, id, deps, pred) && Mirror(pred, succ)
    ensures pred.Keys == succ.Keys == byId.Keys
  {
  }

  lemma ListsDone(byId: map<int, Op>, done: set<int>, id: int, pred: Adjacency)
    requires id in byId && ListsPred(byId, done, id, byId[id].deps, pred)
    ensures ListsPred(byId, done + {id}, id, [], pred)
  {
  }

  method DepEdges(byId: map<int, Op>) returns (succ: Adjacency, pred: Adjacency)
    ensures succ.Keys == pred.Keys == byId.Keys
    ensures forall a, b :: Edge(AsGraph(pred), a, b) <==> Edge(DepGraph(byId), a, b)
    ensures Reversed(DepGraph(byId), AsGraph(succ))
    ensures forall a, x :: a in byId && x in pred[a] ==> x in byId
    ensures forall a, x :: a in byId && x in succ[a] ==> x in byId
  {
    hide ListsPred, Mirror;
    succ := map i | i in byId :: [];
    pred := map i | i in byId :: [];
    NothingListed(byId, succ, pred);
    var todo := byId.Keys;
    ghost var done: set<int> := {};
    while todo != {}
      invariant todo <= byId.Keys && done == byId.Keys - todo
      invariant forall part :: ListsPred(byId, done, part, [], pred)
      invariant Mirror(pred, succ)
    {
      HasMember(todo);
      var id :| id in todo;
      succ, pred := AddDeps(byId, done, id, succ, pred);
      AnyPart(byId, done + {id}, id, pred);
      todo := todo - {id};
      done := done + {id};
    }
    EdgesListed(byId, succ, pred, done);
  }

  lemma NothingListed(byId: map<int, Op>, succ: Adjacency, pred: Adjacency)
    requires succ == (map i | i in byId :: []) && pred == succ
    ensures Mirror(pred, succ) && forall part :: ListsPred(byId, {}, part, [], pred)
  {
  }

  lemma AnyPart(byId: map<int, Op>, done: set<int>, id: int, pred: Adjacency)
    requires ListsPred(byId, done, id, [], pred)
    ensures forall part :: ListsPred(byId, done, part, [], pred)
  {
  }

  lemma EdgesListed(byId: map<int, Op>, succ: Adjacency, pred: Adjacency, done: set<int>)
    requires ListsPred(byId, done, 0, [], pred) && Mirror(pred, succ) && done == byId.Keys
    ensures succ.Keys == pred.Keys == byId.Keys
    ensures forall a, b :: Edge(AsGraph(pred), a, b) <==> Edge(DepGraph(byId), a, b)
    ensures Reversed(DepGraph(byId), AsGraph(succ))
    ensures forall a, x :: a in byId && x in pred[a] ==> x in byId
    ensures forall a, x :: a in byId && x in succ[a] ==> x in byId
  {
    assert forall a, b :: a in byId && b in byId ==> (b in pred[a] <==> b in byId[a].deps);
  }

  // ---------------------------------------------------------------- the worklist

  ghost predicate ReachedFrom(g: Deps, seeds: set<int>, n: int) {
    exists s :: s in seeds && Reaches(g, s, n)
  }

  ghost predicate IsEntry(seeds: set<int>, reached: map<int, int>, e: (int, int)) {
    e.1 in seeds && (e.0 == e.1 || (e.0 in reached && reached[e.0] == e.1))
  }

  /** The targets of every seed and reached node are reached, except from nodes still waiting. */
  ghost predicate Expanded(g: Deps, seeds: set<int>, reached: map<int, int>, waiting: set<int>) {
    forall x, y :: (x in seeds || x in reached) && x !in waiting && Edge(g, x, y) ==> y in reached
  }

  ghost function Nodes(frontier: seq<(int, int)>): set<int> {
    set k | 0 <= k < |frontier| :: frontier[k].0
  }

  ghost predicate Witnessed(g: Deps, seeds: set<int>, reached: map<int, int>, frontier: seq<(int, int)>) {
    && (forall n :: n in reached ==> n in g && reached[n] in seeds && Reaches(g, reached[n], n))
    && (forall k :: 0 <= k < |frontier| ==> IsEntry(seeds, reached, frontier[k]))
  }

  method Expand(edges: Adjacency, seeds: set<int>, node: int, seed: int, reached0: map<int, int>, frontier0: seq<(int, int)>)
    returns (reached: map<int, int>, frontier: seq<(int, int)>)
    requires node in edges && forall n, x :: n in edges && x in edges[n] ==> x in edges
    requires Witnessed(AsGraph(edges), seeds, reached0, frontier0) && IsEntry(seeds, reached0, (node, seed))
    requires Expanded(AsGraph(edges), seeds, reached0, Nodes(frontier0) + {node})
    ensures Witnessed(AsGraph(edges), seeds, reached, frontier)
    ensures Expanded(AsGraph(edges), seeds, reached, Nodes(frontier))
    ensures reached0.Keys <= reached.Keys
    ensures reached.Keys == reached0.Keys ==> frontier == frontier0
  {
    ghost var g := AsGraph(edges);
    reached, frontier := reached0, frontier0;
    var targets := edges[node];
    for n := 0 to |targets|
      invariant Witnessed(g, seeds, reached, frontier) && IsEntry(seeds, reached, (node, seed))
      invariant reached0.Keys <= reached.Keys
      invariant reached.Keys == reached0.Keys ==> frontier == frontier0
      invariant Expanded(g, seeds, reached, Nodes(frontier) + {node})
      invariant forall y :: y in targets[..n] ==> y in reached
    {
      var next := targets[n];
      assert targets[..n + 1] == targets[..n] + [next];
      if next !in reached {
        assert Edge(g, node, next);
        StepWitness(g, seeds, reached, node, seed, next);
        ghost var f0 := frontier;
        reached := reached[next := seed];
        frontier := frontier + [(next, seed)];
        assert Nodes(frontier) == Nodes(f0) + {next} by {
          assert frontier[|f0|] == (next, seed);
          assert forall k :: 0 <= k < |f0| ==> frontier[k] == f0[k];
        }
      }
    }
    assert targets[..|targets|] == targets;
    assert forall y :: Edge(g, node, y) ==> y in targets;
  }

  lemma StepWitness(g: Deps, seeds: set<int>, reached: map<int, int>, node: int, seed: int, next: int)
    requires IsEntry(seeds, reached, (node, seed)) && Edge(g, node, next)
    requires forall n :: n in reached ==> reached[n] in seeds && Reaches(g, reached[n], n)
    ensures Reaches(g, seed, next)
  {
    EdgeReaches(g, node, next);
    if node != seed {
      ReachesTransitive(g, seed, node, next);
    }
  }

  /** Nodes reachable from the seeds in one or more steps, each with a seed it is reached from. */
  method Closure(seeds: set<int>, edges: Adjacency) returns (reached: map<int, int>)
    requires seeds <= edges.Keys && forall n, x :: n in edges && x in edges[n] ==> x in edges
    ensures forall n :: n in reached <==> ReachedFrom(AsGraph(edges), seeds, n)
    ensures forall n :: n in reached ==> reached[n] in seeds && Reaches(AsGraph(edges), reached[n], n)
  {
    hide Witnessed, Expanded, Nodes, AsGraph;
    ghost var g := AsGraph(edges);
    reached := map[];
    var frontier := SeedEntries(seeds);
    NothingReached(g, seeds, frontier);
    while frontier != []
      invariant Witnessed(g, seeds, reached, frontier)
      invariant Expanded(g, seeds, reached, Nodes(frontier))
      decreases edges.Keys - reached.Keys, |frontier|
    {
      var last := |frontier| - 1;
      var (node, seed) := frontier[last];
      PopNodes(frontier);
      PopWitnessed(edges, seeds, reached, frontier);
      ghost var r0 := reached.Keys;
      reached, frontier := Expand(edges, seeds, node, seed, reached, frontier[..last]);
      KeysShrink(edges, seeds, r0, reached, frontier);
    }
    NoNodes();
    forall n
      ensures n in reached <==> ReachedFrom(g, seeds, n)
    {
      ReachedExactly(g, seeds, reached, n);
    }
    AllWitnessed(g, seeds, reached);
  }

  lemma NoNodes()
    ensures Nodes([]) == {}
  {
  }

  lemma NothingReached(g: Deps, seeds: set<int>, frontier: seq<(int, int)>)
    requires forall k :: 0 <= k < |frontier| ==> frontier[k].0 == frontier[k].1 && frontier[k].0 in seeds
    requires Nodes(frontier) == seeds
    ensures Witnessed(g, seeds, map[], frontier) && Expanded(g, seeds, map[], Nodes(frontier))
  {
  }

  lemma PopWitnessed(edges: Adjacency, seeds: set<int>, reached: map<int, int>, frontier: seq<(int, int)>)
    requires frontier != [] && Witnessed(AsGraph(edges), seeds, reached, frontier) && seeds <= edges.Keys
    ensures var last := |frontier| - 1;
      && Witnessed(AsGraph(edges), seeds, reached, frontier[..last]) && IsEntry(seeds, reached, (frontier[last].0, frontier[last].1))
      && frontier[last].0 in edges
  {
    assert IsEntry(seeds, reached, frontier[|frontier| - 1]);
  }

  lemma KeysShrink(edges: Adjacency, seeds: set<int>, r0: set<int>, reached: map<int, int>, frontier: seq<(int, int)>)
    requires Witnessed(AsGraph(edges), seeds, reached, frontier) && r0 <= reached.Keys
    ensures reached.Keys != r0 ==> edges.Keys - reached.Keys < edges.Keys - r0
  {
    forall n | n in reached
      ensures n in edges
    {
      assert n in AsGraph(edges);
    }
    assert edges.Keys - reached.Keys <= edges.Keys - r0;
    if reached.Keys != r0 {
      assert reached.Keys == r0 + (reached.Keys - r0);
      HasMember(reached.Keys - r0);
      var x :| x in reached.Keys - r0;
      assert x in edges.Keys - r0 && x !in edges.Keys - reached.Keys;
    }
  }

  lemma AllWitnessed(g: Deps, seeds: set<int>, reached: map<int, int>)
    requires Witnessed(g, seeds, reached, [])
    ensures forall n :: n in reached ==> reached[n] in seeds && Reaches(g, reached[n], n)
  {
  }

  lemma ReachedExactly(g: Deps, seeds: set<int>, reached: map<int, int>, n: int)
    requires Witnessed(g, seeds, reached, []) && Expanded(g, seeds, reached, {})
    ensures n in reached <==> ReachedFrom(g, seeds, n)
  {
    if s :| s in seeds && Reaches(g, s, n) {
      var p :| PathFromTo(g, p, s, n);
      PathStaysReached(g, seeds, reached, p, |p| - 1);
    }
  }

  lemma PopNodes(frontier: seq<(int, int)>)
    requires frontier != []
    ensures Nodes(frontier) == Nodes(frontier[..|frontier| - 1]) + {frontier[|frontier| - 1].0}
  {
    var init := frontier[..|frontier| - 1];
    assert forall k :: 0 <= k < |init| ==> init[k] == frontier[k];
    forall x | x in Nodes(frontier)
      ensures x in Nodes(init) + {frontier[|frontier| - 1].0}
    {
      var k :| 0 <= k < |frontier| && frontier[k].0 == x;
      if k < |init| { assert init[k].0 == x; }
    }
  }

  method SeedEntries(seeds: set<int>) returns (frontier: seq<(int, int)>)
    ensures forall k :: 0 <= k < |frontier| ==> frontier[k].0 == frontier[k].1 && frontier[k].0 in seeds
    ensures Nodes(frontier) == seeds
  {
    frontier := [];
    var todo := seeds;
    while todo != {}
      invariant todo <= seeds
      invariant forall k :: 0 <= k < |frontier| ==> frontier[k].0 == frontier[k].1 && frontier[k].0 in seeds
      invariant Nodes(frontier) == seeds - todo
    {
      HasMember(todo);
      var s :| s in todo;
      ghost var f0 := frontier;
      frontier := frontier + [(s, s)];
      PopNodes(frontier);
      assert frontier[..|frontier| - 1] == f0;
      todo := todo - {s};
    }
  }

  lemma PathStaysReached(g: Deps, seeds: set<int>, reached: map<int, int>, p: seq<int>, j: nat)
    requires Expanded(g, seeds, reached, {}) && IsPath(g, p) && p[0] in seeds && 0 < j < |p|
    ensures p[j] in reached
  {
    if j > 1 {
      PathStaysReached(g, seeds, reached, p, j - 1);
    }
    assert Edge(g, p[j - 1], p[j - 1 + 1]);
  }

  // ---------------------------------------------------------------- validating a group

  function AsSet(s: seq<int>): set<int> {
    set x | x in s
  }

  predicate Known(group: seq<int>, byId: map<int, Op>) {
    forall i :: 0 <= i < |group| ==> group[i] in byId
  }

  function DepsOf(byId: map<int, Op>, x: int): seq<int> {
    if x in byId then byId[x].deps else []
  }

  predicate HasKind(byId: map<int, Op>, x: int, kind: string) {
    x in byId && byId[x].body.kind == kind
  }

  ghost predicate MemberDep(group: seq<int>, byId: map<int, Op>, i: int, d: int) {
    0 <= i < |group| && d in DepsOf(byId, group[i]) && d in group
  }

  /** No member depends on itself or on a member listed after it. */
  ghost predicate InTopologicalOrder(group: seq<int>, byId: map<int, Op>) {
    forall i, d :: MemberDep(group, byId, i, d) ==> d in group[..i]
  }

  ghost predicate Valid(group: seq<int>, byId: map<int, Op>) {
    group != [] && Distinct(group) && Known(group, byId) && InTopologicalOrder(group, byId) && Closed(DepGraph(byId), AsSet(group))
  }

  /** What the reason given for a refusal tells the caller. */
  ghost predicate Explains(e: FusionError, group: seq<int>, byId: map<int, Op>) {
    match e
    case EmptyGroup => group == []
    case DuplicateIds => !Distinct(group)
    case UnknownIds => !Known(group, byId)
    case NotTopological => !InTopologicalOrder(group, byId)
    case NotClosed(x, a, b) =>
      && Trapped(DepGraph(byId), AsSet(group), x) && (forall y :: Trapped(DepGraph(byId), AsSet(group), y) ==> x <= y)
      && a in group && b in group && Reaches(DepGraph(byId), x, a) && Reaches(DepGraph(byId), b, x)
    case _ => false
  }

  method HasDuplicates(group: seq<int>) returns (dup: bool)
    ensures dup <==> !Distinct(group)
  {
    var seen: set<int> := {};
    for i := 0 to |group|
      invariant Distinct(group[..i])
      invariant forall x :: x in seen <==> x in group[..i]
    {
      ghost var upto := group[..i + 1];
      assert upto == group[..i] + [group[i]];
      if group[i] in seen {
        var j :| 0 <= j < i && group[..i][j] == group[i];
        assert group[j] == group[i];
        return true;
      }
      seen := seen + {group[i]};
    }
    assert group[..|group|] == group;
    return false;
  }

  method CheckOrder(group: seq<int>, byId: map<int, Op>) returns (ok: bool)
    ensures ok <==> InTopologicalOrder(group, byId)
  {
    for i := 0 to |group|
      invariant forall j, d :: j < i && MemberDep(group, byId, j, d) ==> d in group[..j]
    {
      var deps := DepsOf(byId, group[i]);
      for n := 0 to |deps|
        invariant forall m :: 0 <= m < n && deps[m] in group ==> deps[m] in group[..i]
      {
        if deps[n] in group && deps[n] !in group[..i] {
          assert MemberDep(group, byId, i, deps[n]);
          return false;
        }
      }
    }
    return true;
  }

  method Least(s: set<int>) returns (m: int)
    requires s != {}
    ensures m in s && forall x :: x in s ==> m <= x
  {
    HasMember(s);
    m :| m in s;
    var todo := s - {m};
    while todo != {}
      invariant m in s && todo <= s
      invariant forall x :: x in s ==> m <= x || x in todo
    {
      HasMember(todo);
      var x :| x in todo;
      if x < m { m := x; }
      todo := todo - {x};
    }
  }

  /** Accepts a group exactly when it is valid, and says truthfully why it refuses one. */
  method ValidateFuseGroup(group: seq<int>, byId: map<int, Op>) returns (r: Option<FusionError>)
    ensures r.None? <==> Valid(group, byId)
    ensures r.Some? ==> Explains(r.value, group, byId)
  {
    if group == [] { return Some(EmptyGroup); }
    var dup := HasDuplicates(group);
    if dup { return Some(DuplicateIds); }
    var members := AsSet(group);
    if members - byId.Keys != {} {
      HasMember(members - byId.Keys);
      return Some(UnknownIds);
    }
    assert Known(group, byId) by {
      forall i | 0 <= i < |group|
        ensures group[i] in byId
      {
        assert group[i] in members;
        assert group[i] !in members - byId.Keys;
      }
    }
    var ordered := CheckOrder(group, byId);
    if !ordered { return Some(NotTopological); }
    var succ, pred := DepEdges(byId);
    KnownMembers(group, byId);
    hide *;
    var descendants := Closure(members, succ);
    var ancestors := Closure(members, pred);
    ghost var g := DepGraph(byId);
    BothWays(g, AsGraph(succ), AsGraph(pred), members, descendants, ancestors);
    var trapped := (descendants.Keys * ancestors.Keys) - members;
    if trapped != {} {
      var x := Least(trapped);
      r := Some(NotClosed(x, descendants[x], ancestors[x]));
      TrappedRefused(group, byId, x, descendants[x], ancestors[x]);
      return;
    }
    NoneTrapped(group, byId);
    return None;
  }

  lemma KnownMembers(group: seq<int>, byId: map<int, Op>)
    requires Known(group, byId)
    ensures AsSet(group) <= byId.Keys
  {
  }

  /** The two closures find the trapped ops. */
  lemma BothWays(g: Deps, up: Deps, down: Deps, members: set<int>, descendants: map<int, int>, ancestors: map<int, int>)
    requires Reversed(g, up) && forall a, b :: Edge(down, a, b) <==> Edge(g, a, b)
    requires forall n :: n in descendants <==> ReachedFrom(up, members, n)
    requires forall n :: n in descendants ==> descendants[n] in members && Reaches(up, descendants[n], n)
    requires forall n :: n in ancestors <==> ReachedFrom(down, members, n)
    requires forall n :: n in ancestors ==> ancestors[n] in members && Reaches(down, ancestors[n], n)
    ensures forall x :: x in (descendants.Keys * ancestors.Keys) - members <==> Trapped(g, members, x)
    ensures forall x :: x in descendants ==> descendants[x] in members && Reaches(g, x, descendants[x])
    ensures forall x :: x in ancestors ==> ancestors[x] in members && Reaches(g, ancestors[x], x)
  {
    hide Edge, Reaches;
    forall a, b
      ensures Reaches(up, a, b) <==> Reaches(g, b, a)
      ensures Reaches(down, a, b) <==> Reaches(g, a, b)
    {
      SameReaches(g, up, down, a, b);
    }
    forall x
      ensures x in (descendants.Keys * ancestors.Keys) - members <==> Trapped(g, members, x)
    {
      if Trapped(g, members, x) {
        var a :| a in members && Reaches(g, a, x);
        var b :| b in members && Reaches(g, x, b);
        assert Reaches(down, a, x) && Reaches(up, b, x);
      }
    }
  }

  lemma SameReaches(g: Deps, up: Deps, down: Deps, a: int, b: int)
    requires Reversed(g, up) && forall x, y :: Edge(down, x, y) <==> Edge(g, x, y)
    ensures Reaches(up, a, b) <==> Reaches(g, b, a)
    ensures Reaches(down, a, b) <==> Reaches(g, a, b)
  {
    hide Edge;
    if Reaches(g, b, a) { ReversedReaches(g, up, b, a); }
    if Reaches(up, a, b) { ReversedReaches(up, g, a, b); }
    if p :| PathFromTo(down, p, a, b) {
      assert PathFromTo(g, p, a, b);
    }
    if p :| PathFromTo(g, p, a, b) {
      assert PathFromTo(down, p, a, b);
    }
  }

  lemma TrappedRefused(group: seq<int>, byId: map<int, Op>, x: int, a: int, b: int)
    requires Trapped(DepGraph(byId), AsSet(group), x) && forall y :: Trapped(DepGraph(byId), AsSet(group), y) ==> x <= y
    requires a in AsSet(group) && b in AsSet(group) && Reaches(DepGraph(byId), x, a) && Reaches(DepGraph(byId), b, x)
    ensures !Valid(group, byId) && Explains(NotClosed(x, a, b), group, byId)
  {
    hide Trapped, Reaches, DepGraph;
  }

  lemma NoneTrapped(group: seq<int>, byId: map<int, Op>)
    requires group != [] && Distinct(group) && Known(group, byId) && InTopologicalOrder(group, byId)
    requires forall x :: !Trapped(DepGraph(byId), AsSet(group), x)
    ensures Valid(group, byId)
  {
    hide Trapped, DepGraph;
  }

  /** The check is exact: on an acyclic graph, a group in order is accepted exactly when
      collapsing it leaves the graph acyclic. */
  lemma AcceptedIffSchedulable(group: seq<int>, byId: map<int, Op>, head: int)
    requires Acyclic(DepGraph(byId)) && head in group
    requires Distinct(group) && Known(group, byId) && InTopologicalOrder(group, byId)
    ensures Valid(group, byId) <==> Acyclic(Contract(DepGraph(byId), Collapse(AsSet(group), head)))
  {
    hide DepGraph, InTopologicalOrder, Known, Distinct, Contract, Collapse, Acyclic;
    ClosureCheckIsExact(DepGraph(byId), AsSet(group), head);
  }

  // ---------------------------------------------------------------- pairs

  function PairsOf(group: seq<int>): (r: seq<seq<int>>)
    requires |group| % 2 == 0
    ensures |r| == |group| / 2 && forall i :: 0 <= i < |r| ==> r[i] == [group[2 * i], group[2 * i + 1]]
  {
    seq(|group| / 2, i requires 0 <= i < |group| / 2 => [group[2 * i], group[2 * i + 1]])
  }

  predicate Alternates(group: seq<int>, byId: map<int, Op>) {
    |group| % 2 == 0 && forall i :: 0 <= i < |PairsOf(group)| ==> IsLinearElu(PairsOf(group)[i], byId)
  }

  predicate IsLinearElu(pair: seq<int>, byId: map<int, Op>) {
    |pair| == 2 && HasKind(byId, pair[0], "linear_s8") && HasKind(byId, pair[1], "elu_s8")
  }

  /** Splits a group that alternates linear and elu into its consecutive pairs. */
  method PairwiseSplit(group: seq<int>, byId: map<int, Op>) returns (r: Option<seq<seq<int>>>)
    requires Known(group, byId)
    ensures r == if Alternates(group, byId) then Some(PairsOf(group)) else None
  {
    if |group| % 2 != 0 { return None; }
    var pairs: seq<seq<int>> := [];
    var i := 0;
    while i < |group|
      invariant 0 <= i <= |group| && i == 2 * |pairs|
      invariant pairs == PairsOf(group)[..|pairs|]
      invariant forall k :: 0 <= k < |pairs| ==> IsLinearElu(pairs[k], byId)
    {
      var a, b := group[i], group[i + 1];
      assert PairsOf(group)[|pairs|] == [a, b];
      if byId[a].body.kind == "linear_s8" && byId[b].body.kind == "elu_s8" {
        pairs := pairs + [[a, b]];
      } else {
        return None;
      }
      i := i + 2;
    }
    assert PairsOf(group)[..|pairs|] == PairsOf(group);
    return Some(pairs);
  }

  function IndexIn(group: seq<int>, x: int): (i: nat)
    requires x in group
    ensures i < |group| && group[i] == x
  {
    if group[0] == x then 0 else 1 + IndexIn(group[1..], x)
  }

  /** Inside a valid group every dependency goes backwards in the list. */
  lemma EdgeGoesBack(group: seq<int>, byId: map<int, Op>, x: int, d: int)
    requires Valid(group, byId) && x in group && d in group && Edge(DepGraph(byId), x, d)
    ensures IndexIn(group, d) < IndexIn(group, x)
  {
    var i := IndexIn(group, x);
    assert MemberDep(group, byId, i, d);
    assert d in group[..i];
    var j :| 0 <= j < i && group[..i][j] == d;
    assert group[j] == d;
  }

  /** A path between members of a valid group stays inside and goes backwards. */
  lemma {:induction false} PathStaysInside(group: seq<int>, byId: map<int, Op>, p: seq<int>)
    requires Valid(group, byId) && IsPath(DepGraph(byId), p) && |p| >= 2 && p[0] in group && p[|p| - 1] in group
    ensures forall i :: 0 <= i < |p| ==> p[i] in group
    ensures forall i, j :: 0 <= i < j < |p| ==> IndexIn(group, p[j]) < IndexIn(group, p[i])
  {
    var g := DepGraph(byId);
    forall i | 0 <= i < |p|
      ensures p[i] in group
    {
      if 0 < i < |p| - 1 {
        SubPathReaches(g, p, 0, i);
        SubPathReaches(g, p, i, |p| - 1);
        assert !Trapped(g, AsSet(group), p[i]);
        assert p[0] in AsSet(group) && p[|p| - 1] in AsSet(group);
      }
    }
    forall i, j | 0 <= i < j < |p|
      ensures IndexIn(group, p[j]) < IndexIn(group, p[i])
    {
      IndexFalls(group, byId, p, i, j);
    }
  }

  lemma {:induction false} IndexFalls(group: seq<int>, byId: map<int, Op>, p: seq<int>, i: nat, j: nat)
    requires Valid(group, byId) && IsPath(DepGraph(byId), p) && i < j < |p|
    requires forall k :: 0 <= k < |p| ==> p[k] in group
    ensures IndexIn(group, p[j]) < IndexIn(group, p[i])
    decreases j - i
  {
    assert Edge(DepGraph(byId), p[j - 1], p[j - 1 + 1]);
    EdgeGoesBack(group, byId, p[j - 1], p[j]);
    if i < j - 1 {
      IndexFalls(group, byId, p, i, j - 1);
    }
  }

  lemma IndexOfDistinct(group: seq<int>, i: nat)
    requires Distinct(group) && i < |group|
    ensures IndexIn(group, group[i]) == i
  {
    var k := IndexIn(group, group[i]);
  }

  /** The pairs of a valid group need no second closure check. */
  lemma PairsAreValid(group: seq<int>, byId: map<int, Op>, i: nat)
    requires Valid(group, byId) && |group| % 2 == 0 && i < |group| / 2
    ensures Valid(PairsOf(group)[i], byId)
  {
    var g := DepGraph(byId);
    var pair := PairsOf(group)[i];
    var a, b := group[2 * i], group[2 * i + 1];
    IndexOfDistinct(group, 2 * i);
    IndexOfDistinct(group, 2 * i + 1);
    assert a in group && b in group;
    PairInOrder(group, byId, i);
    forall x
      ensures !Trapped(g, AsSet(pair), x)
    {
      PairTrapsNothing(group, byId, i, x);
    }
  }

  lemma PairInOrder(group: seq<int>, byId: map<int, Op>, i: nat)
    requires Valid(group, byId) && |group| % 2 == 0 && i < |group| / 2
    ensures var pair := PairsOf(group)[i]; Distinct(pair) && Known(pair, byId) && InTopologicalOrder(pair, byId)
  {
    var pair := PairsOf(group)[i];
    var a, b := group[2 * i], group[2 * i + 1];
    assert a in group && b in group && a != b;
    IndexOfDistinct(group, 2 * i);
    IndexOfDistinct(group, 2 * i + 1);
    forall k, d | MemberDep(pair, byId, k, d)
      ensures d in pair[..k]
    {
      assert d == a || d == b;
      assert Edge(DepGraph(byId), pair[k], d);
      EdgeGoesBack(group, byId, pair[k], d);
      assert k == 1 && d == a;
      assert pair[..1] == [a];
    }
  }

  /** Whatever lies between two members leaves a gap between them in the list. */
  lemma GapBetween(group: seq<int>, byId: map<int, Op>, s: int, x: int, t: int)
    requires Valid(group, byId) && s in group && t in group
    requires Reaches(DepGraph(byId), s, x) && Reaches(DepGraph(byId), x, t)
    ensures x in group && IndexIn(group, t) < IndexIn(group, x) < IndexIn(group, s)
  {
    var g := DepGraph(byId);
    var p :| PathFromTo(g, p, s, x);
    var q :| PathFromTo(g, q, x, t);
    PathJoin(g, p, q);
    var r := p + q[1..];
    assert r[|p| - 1] == x && r[|r| - 1] == t && r[0] == s;
    hide DepGraph, Valid, IndexIn;
    PathStaysInside(group, byId, r);
  }

  lemma PairTrapsNothing(group: seq<int>, byId: map<int, Op>, i: nat, x: int)
    requires Valid(group, byId) && |group| % 2 == 0 && i < |group| / 2
    ensures !Trapped(DepGraph(byId), AsSet(PairsOf(group)[i]), x)
  {
    var g := DepGraph(byId);
    var pair := PairsOf(group)[i];
    IndexOfDistinct(group, 2 * i);
    IndexOfDistinct(group, 2 * i + 1);
    hide DepGraph, IndexIn, Reaches;
    if Trapped(g, AsSet(pair), x) {
      var s :| s in AsSet(pair) && Reaches(g, s, x);
      var t :| t in AsSet(pair) && Reaches(g, x, t);
      GapBetween(group, byId, s, x, t);
    }
  }

  // ---------------------------------------------------------------- all pairs at once

  ghost function SetsOf(groups: seq<seq<int>>): (r: seq<set<int>>)
    ensures |r| == |groups| && forall i :: 0 <= i < |r| ==> r[i] == AsSet(groups[i])
  {
    seq(|groups|, i requires 0 <= i < |groups| => AsSet(groups[i]))
  }

  ghost predicate HeadsOf(groups: seq<seq<int>>, heads: seq<int>) {
    |heads| == |groups| && forall i :: 0 <= i < |groups| ==> heads[i] in groups[i]
  }

  lemma PairsAreDisjoint(group: seq<int>, heads: seq<int>)
    requires Distinct(group) && |group| % 2 == 0 && HeadsOf(PairsOf(group), heads)
    ensures Disjoint(SetsOf(PairsOf(group)), heads)
  {
    var pairs := PairsOf(group);
    forall i, j | 0 <= i < j < |pairs|
      ensures AsSet(pairs[i]) !! AsSet(pairs[j])
    {
      assert pairs[i] == [group[2 * i], group[2 * i + 1]] && pairs[j] == [group[2 * j], group[2 * j + 1]];
    }
  }

  /** A member's representative is the head of its pair. */
  lemma PairRep(group: seq<int>, heads: seq<int>, x: int)
    requires Distinct(group) && |group| % 2 == 0 && HeadsOf(PairsOf(group), heads)
    ensures var y := RepOf(SetsOf(PairsOf(group)), heads, x);
      && (x in group <==> y in group)
      && (x in group ==> IndexIn(group, y) / 2 == IndexIn(group, x) / 2 && y == heads[IndexIn(group, x) / 2])
      && (x !in group ==> y == x)
  {
    var pairs := PairsOf(group);
    var sets := SetsOf(pairs);
    PairsAreDisjoint(group, heads);
    RepMeans(sets, heads, x);
    hide RepOf;
    if x in group {
      var i := IndexIn(group, x) / 2;
      assert pairs[i] == [group[2 * i], group[2 * i + 1]];
      assert x in AsSet(pairs[i]) && x in sets[i];
      assert heads[i] in pairs[i];
      IndexOfDistinct(group, 2 * i);
      IndexOfDistinct(group, 2 * i + 1);
    } else {
      forall i | 0 <= i < |sets|
        ensures x !in sets[i]
      {
        assert pairs[i] == [group[2 * i], group[2 * i + 1]];
      }
    }
  }

  /** Between members, an edge of the graph of pairs leads to an earlier pair. */
  lemma PairEdgeGoesBack(group: seq<int>, byId: map<int, Op>, heads: seq<int>, y: int, z: int)
    requires Valid(group, byId) && |group| % 2 == 0 && HeadsOf(PairsOf(group), heads)
    requires Edge(Contract(DepGraph(byId), Rep(SetsOf(PairsOf(group)), heads)), y, z) && y in group && z in group
    ensures IndexIn(group, z) / 2 < IndexIn(group, y) / 2
  {
    hide Contract, DepGraph, Valid, IndexIn, Edge, RepOf;
    assert Distinct(group) by { ValidIsDistinct(group, byId); }
    var rep := Rep(SetsOf(PairsOf(group)), heads);
    ContractEdge(DepGraph(byId), rep, y, z);
    var x, d :| Edge(DepGraph(byId), x, d) && rep(x) == y && rep(d) == z;
    PairRep(group, heads, x);
    PairRep(group, heads, d);
    EdgeGoesBack(group, byId, x, d);
  }

  lemma ValidIsDistinct(group: seq<int>, byId: map<int, Op>)
    requires Valid(group, byId)
    ensures Distinct(group) && group != [] && Closed(DepGraph(byId), AsSet(group))
  {
  }

  lemma {:induction false} PairIndexFalls(group: seq<int>, byId: map<int, Op>, heads: seq<int>, p: seq<int>, j: nat)
    requires Valid(group, byId) && |group| % 2 == 0 && HeadsOf(PairsOf(group), heads)
    requires IsPath(Contract(DepGraph(byId), Rep(SetsOf(PairsOf(group)), heads)), p) && j < |p|
    requires forall i :: 0 <= i < |p| ==> p[i] in group
    ensures IndexIn(group, p[j]) / 2 <= IndexIn(group, p[0]) / 2 - j
  {
    hide Contract, DepGraph, Valid, IndexIn, RepOf;
    if j > 0 {
      PairIndexFalls(group, byId, heads, p, j - 1);
      assert Edge(Contract(DepGraph(byId), Rep(SetsOf(PairsOf(group)), heads)), p[j - 1], p[j - 1 + 1]);
      PairEdgeGoesBack(group, byId, heads, p[j - 1], p[j]);
    }
  }

  lemma PairsMapToGroup(group: seq<int>, byId: map<int, Op>, heads: seq<int>)
    requires Distinct(group) && group != [] && |group| % 2 == 0 && HeadsOf(PairsOf(group), heads)
    ensures var k := Collapse(AsSet(group), group[0]); var g := DepGraph(byId);
      forall a, b :: Edge(Contract(g, Rep(SetsOf(PairsOf(group)), heads)), a, b) ==> k(a) == k(b) || Edge(Contract(g, k), k(a), k(b))
  {
    hide Contract, DepGraph, IndexIn, Edge, RepOf;
    var k := Collapse(AsSet(group), group[0]);
    var g := DepGraph(byId);
    var rep := Rep(SetsOf(PairsOf(group)), heads);
    EdgesContract(g, k);
    forall a, b | Edge(Contract(g, rep), a, b)
      ensures k(a) == k(b) || Edge(Contract(g, k), k(a), k(b))
    {
      ContractEdge(g, rep, a, b);
      var x, d :| Edge(g, x, d) && rep(x) == a && rep(d) == b;
      PairRep(group, heads, x);
      PairRep(group, heads, d);
      assert k(x) == k(a) && k(d) == k(b);
    }
  }

  /** Fusing all consecutive pairs of one valid group at once keeps the graph acyclic. */
  lemma PairsStaySchedulable(group: seq<int>, byId: map<int, Op>, heads: seq<int>)
    requires Valid(group, byId) && Acyclic(DepGraph(byId)) && |group| % 2 == 0 && HeadsOf(PairsOf(group), heads)
    ensures Acyclic(Contract(DepGraph(byId), Rep(SetsOf(PairsOf(group)), heads)))
  {
    hide Contract, DepGraph, Valid, IndexIn, Edge, RepOf, Reaches;
    var g := DepGraph(byId);
    ValidIsDistinct(group, byId);
    var k := Collapse(AsSet(group), group[0]);
    var c := Contract(g, Rep(SetsOf(PairsOf(group)), heads));
    ClosureCheckIsExact(g, AsSet(group), group[0]);
    PairsMapToGroup(group, byId, heads);
    if a :| Reaches(c, a, a) {
      var p := PathOf(c, a, a);
      CycleCollapses(c, Contract(g, k), k, p);
      assert Edge(c, p[0], p[0 + 1]);
      ContractEdge(g, Rep(SetsOf(PairsOf(group)), heads), p[0], p[1]);
      assert k(p[1]) == k(p[0]);
      assert p[0] in group && p[1] in group;
      assert forall i :: 0 <= i < |p| ==> k(p[i]) == group[0] && (p[i] in group || p[i] == group[0]);
      PairIndexFalls(group, byId, heads, p, |p| - 1);
    }
  }

  lemma PathOf(g: Deps, a: int, b: int) returns (p: seq<int>)
    requires Reaches(g, a, b)
    ensures PathFromTo(g, p, a, b)
  {
    p :| PathFromTo(g, p, a, b);
  }
}
