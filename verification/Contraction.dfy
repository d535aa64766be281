/** Contracting groups of nodes of a dependency graph, as fusion does.

    The questions the fusion rewriter has to get right are graph questions: when does collapsing
    a group to one node create a cycle, what about several groups at once, and what about the
    pieces of one group. They are answered here exactly, without ops. */
module Contraction {
  import opened Digraph

  /** Every node is replaced by its representative; edges inside a class disappear. */
  ghost function Contract(g: Deps, rep: int -> int): Deps {
    map y | y in Images(g, rep) ::
      set x, d | x in g && d in g[x] && d in g && rep(x) == y && rep(d) != y :: rep(d)
  }

  ghost function Images(g: Deps, rep: int -> int): set<int> {
    set x | x in g :: rep(x)
  }

  lemma ContractEdge(g: Deps, rep: int -> int, y: int, z: int)
    ensures Edge(Contract(g, rep), y, z) <==> y != z && exists x, d :: Edge(g, x, d) && rep(x) == y && rep(d) == z
  {
    if Edge(Contract(g, rep), y, z) {
      var x, d :| x in g && d in g[x] && d in g && rep(x) == y && rep(d) != y && rep(d) == z;
      assert Edge(g, x, d);
    }
    if x, d :| Edge(g, x, d) && rep(x) == y && rep(d) == z && y != z {
      assert z in Contract(g, rep)[y];
    }
  }

  lemma EdgesContract(g: Deps, rep: int -> int)
    ensures forall a, b :: Edge(g, a, b) ==> rep(a) == rep(b) || Edge(Contract(g, rep), rep(a), rep(b))
  {
    forall a, b | Edge(g, a, b) && rep(a) != rep(b)
      ensures Edge(Contract(g, rep), rep(a), rep(b))
    {
      ContractEdge(g, rep, rep(a), rep(b));
    }
  }

  // ---------------------------------------------------------------- one group

  /** An op outside the group that depends on a member and on which a member depends. */
  ghost predicate Trapped(g: Deps, group: set<int>, x: int) {
    && x !in group
    && (exists a :: a in group && Reaches(g, a, x))
    && (exists b :: b in group && Reaches(g, x, b))
  }

  ghost predicate Closed(g: Deps, group: set<int>) {
    forall x :: !Trapped(g, group, x)
  }

  function Collapse(group: set<int>, head: int): int -> int {
    (x: int) => if x in group then head else x
  }

  /** An op between two members ends up on a cycle through the fused node. */
  lemma TrappedMakesCycle(g: Deps, group: set<int>, head: int, x: int)
    requires head in group && Trapped(g, group, x)
    ensures var c := Contract(g, Collapse(group, head)); Reaches(c, head, x) && Reaches(c, x, head) && Reaches(c, head, head)
  {
    var rep := Collapse(group, head);
    var c := Contract(g, rep);
    EdgesContract(g, rep);
    var a :| a in group && Reaches(g, a, x);
    var b :| b in group && Reaches(g, x, b);
    var p :| PathFromTo(g, p, a, x);
    var q :| PathFromTo(g, q, x, b);
    ReachesMaps(g, c, rep, p);
    ReachesMaps(g, c, rep, q);
    ReachesTransitive(c, head, x, head);
  }

  /** Away from the fused node a contracted path is a path of the original graph. */
  lemma LiftAway(g: Deps, group: set<int>, head: int, p: seq<int>)
    requires head in group && IsPath(Contract(g, Collapse(group, head)), p)
    requires forall i :: 0 <= i < |p| ==> p[i] != head
    ensures IsPath(g, p)
  {
    var c := Contract(g, Collapse(group, head));
    forall i | 0 <= i < |p| - 1
      ensures Edge(g, p[i], p[i + 1])
    {
      assert Edge(c, p[i], p[i + 1]);
      ContractEdge(g, Collapse(group, head), p[i], p[i + 1]);
    }
  }

  /** Edges of the contracted graph at the fused node come from edges at members. */
  lemma EdgeAtHead(g: Deps, group: set<int>, head: int, y: int)
    requires head in group
    ensures Edge(Contract(g, Collapse(group, head)), head, y) ==> y !in group && exists s :: s in group && Edge(g, s, y)
    ensures Edge(Contract(g, Collapse(group, head)), y, head) ==> y !in group && exists b :: b in group && Edge(g, y, b)
  {
    ContractEdge(g, Collapse(group, head), head, y);
    ContractEdge(g, Collapse(group, head), y, head);
  }

  /** Following a contracted path from the fused node back to it passes a trapped op. */
  lemma ReturnTraps(g: Deps, group: set<int>, head: int, p: seq<int>) returns (x: int)
    requires head in group && PathFromTo(Contract(g, Collapse(group, head)), p, head, head)
    ensures Trapped(g, group, x)
  {
    hide Contract, Edge, Reaches;
    var c := Contract(g, Collapse(group, head));
    var j := 1;
    while p[j] != head
      invariant 1 <= j < |p|
      invariant forall i :: 1 <= i < j ==> p[i] != head
      decreases |p| - j
    {
      j := j + 1;
    }
    x := p[1];
    assert Edge(c, p[0], p[0 + 1]) && Edge(c, p[j - 1], p[j - 1 + 1]);
    EdgeAtHead(g, group, head, x);
    EdgeAtHead(g, group, head, p[j - 1]);
    var s :| s in group && Edge(g, s, x);
    if j == 1 {
      EdgeAtHead(g, group, head, head);
    }
    var b :| b in group && Edge(g, p[j - 1], b);
    EdgeReaches(g, s, x);
    EdgeReaches(g, p[j - 1], b);
    var mid := p[1..j];
    SubPath(c, p, 1, j);
    LiftAway(g, group, head, mid);
    if |mid| > 1 {
      SubPathReaches(g, mid, 0, |mid| - 1);
      ReachesTransitive(g, x, p[j - 1], b);
    }
  }

  lemma SubPath(g: Deps, p: seq<int>, i: nat, j: nat)
    requires IsPath(g, p) && i < j <= |p|
    ensures IsPath(g, p[i..j])
  {
    var q := p[i..j];
    forall k {:trigger q[k]} | 0 <= k < |q| - 1
      ensures Edge(g, q[k], q[k + 1])
    {
      assert Edge(g, p[i + k], p[i + k + 1]);
    }
  }

  /** Collapsing one group keeps an acyclic graph acyclic exactly when the group is closed. */
  lemma ClosureCheckIsExact(g: Deps, group: set<int>, head: int)
    requires Acyclic(g) && head in group
    ensures Acyclic(Contract(g, Collapse(group, head))) <==> Closed(g, group)
  {
    var c := Contract(g, Collapse(group, head));
    if x :| Trapped(g, group, x) {
      TrappedMakesCycle(g, group, head, x);
    }
    if a :| Reaches(c, a, a) {
      var p :| PathFromTo(c, p, a, a);
      if j :| 0 <= j < |p| && p[j] == head {
        var q := Rotate(c, p, j);
        var x := ReturnTraps(g, group, head, q);
      } else {
        LiftAway(g, group, head, p);
        assert PathFromTo(g, p, a, a);
        assert Reaches(g, a, a);
      }
    }
  }

  lemma Rotate(g: Deps, p: seq<int>, j: nat) returns (q: seq<int>)
    requires IsPath(g, p) && |p| >= 2 && p[0] == p[|p| - 1] && j < |p|
    ensures PathFromTo(g, q, p[j], p[j])
  {
    var a, b := p[j..], p[..j + 1];
    assert forall k {:trigger a[k]} :: 0 <= k < |a| ==> a[k] == p[j + k];
    assert forall k {:trigger b[k]} :: 0 <= k < |b| ==> b[k] == p[k];
    assert IsPath(g, a) && IsPath(g, b);
    PathJoin(g, a, b);
    q := a + b[1..];
  }

  // ---------------------------------------------------------------- several groups

  /** Representatives when the groups are collapsed onto their heads. */
  function Rep(groups: seq<set<int>>, heads: seq<int>): int -> int
    requires |groups| == |heads|
  {
    (x: int) => RepOf(groups, heads, x)
  }

  function RepOf(groups: seq<set<int>>, heads: seq<int>, x: int): int
    requires |groups| == |heads|
  {
    if groups == [] then x
    else Collapse(groups[|groups| - 1], heads[|groups| - 1])(RepOf(groups[..|groups| - 1], heads[..|groups| - 1], x))
  }

  ghost predicate Disjoint(groups: seq<set<int>>, heads: seq<int>) {
    && |groups| == |heads|
    && (forall i :: 0 <= i < |groups| ==> heads[i] in groups[i])
    && (forall i, j :: 0 <= i < j < |groups| ==> groups[i] !! groups[j])
  }

  lemma {:induction false} RepMeans(groups: seq<set<int>>, heads: seq<int>, x: int)
    requires Disjoint(groups, heads)
    ensures forall i :: 0 <= i < |groups| && x in groups[i] ==> RepOf(groups, heads, x) == heads[i]
    ensures (forall i :: 0 <= i < |groups| ==> x !in groups[i]) ==> RepOf(groups, heads, x) == x
  {
    if groups != [] {
      var n := |groups| - 1;
      RepMeans(groups[..n], heads[..n], x);
      if i :| 0 <= i < n && x in groups[i] {
        assert groups[..n][i] == groups[i];
        assert heads[i] in groups[i] && heads[i] !in groups[n];
      }
    }
  }

  /** Contracting in two steps is contracting once. */
  lemma ContractTwice(g: Deps, r1: int -> int, r2: int -> int, r: int -> int)
    requires forall x :: r(x) == r2(r1(x))
    ensures Contract(Contract(g, r1), r2) == Contract(g, r)
  {
    var a, b := Contract(Contract(g, r1), r2), Contract(g, r);
    assert a.Keys == b.Keys by {
      forall y | y in b
        ensures y in a
      {
        var x :| x in g && r(x) == y;
        assert r1(x) in Contract(g, r1);
      }
    }
    forall y | y in a
      ensures a[y] == b[y]
    {
      forall z
        ensures z in a[y] <==> z in b[y]
      {
        TwiceEdge(g, r1, r2, r, y, z);
        InTarget(g, r, y, z);
        InTarget(Contract(g, r1), r2, y, z);
      }
    }
  }

  lemma InTarget(g: Deps, rep: int -> int, y: int, z: int)
    requires y in Contract(g, rep)
    ensures z in Contract(g, rep)[y] <==> Edge(Contract(g, rep), y, z)
  {
  }

  lemma TwiceEdge(g: Deps, r1: int -> int, r2: int -> int, r: int -> int, y: int, z: int)
    requires forall x :: r(x) == r2(r1(x))
    ensures Edge(Contract(Contract(g, r1), r2), y, z) <==> Edge(Contract(g, r), y, z)
  {
    ContractEdge(Contract(g, r1), r2, y, z);
    ContractEdge(g, r, y, z);
    if Edge(Contract(Contract(g, r1), r2), y, z) {
      var x1, d1 :| Edge(Contract(g, r1), x1, d1) && r2(x1) == y && r2(d1) == z;
      ContractEdge(g, r1, x1, d1);
      var x, d :| Edge(g, x, d) && r1(x) == x1 && r1(d) == d1;
      assert r(x) == y && r(d) == z;
    }
    if Edge(Contract(g, r), y, z) {
      var x, d :| Edge(g, x, d) && r(x) == y && r(d) == z;
      ContractEdge(g, r1, r1(x), r1(d));
    }
  }

  ghost function Partial(g: Deps, groups: seq<set<int>>, heads: seq<int>, k: nat): Deps
    requires |groups| == |heads| && k <= |groups|
  {
    Contract(g, Rep(groups[..k], heads[..k]))
  }

  lemma PartialStep(g: Deps, groups: seq<set<int>>, heads: seq<int>, k: nat)
    requires |groups| == |heads| && k < |groups|
    ensures Partial(g, groups, heads, k + 1) == Contract(Partial(g, groups, heads, k), Collapse(groups[k], heads[k]))
  {
    var r1, r2, r := Rep(groups[..k], heads[..k]), Collapse(groups[k], heads[k]), Rep(groups[..k + 1], heads[..k + 1]);
    forall x
      ensures r(x) == r2(r1(x))
    {
      assert groups[..k + 1][..k] == groups[..k] && heads[..k + 1][..k] == heads[..k];
    }
    ContractTwice(g, r1, r2, r);
  }

  /** Undoing the last collapse brings no cycle back: a cycle that the collapse swallowed would
      lie inside the group, where the graph is still the original one. */
  lemma AcyclicBefore(g: Deps, groups: seq<set<int>>, heads: seq<int>, k: nat)
    requires Acyclic(g) && Disjoint(groups, heads) && k < |groups|
    requires Acyclic(Partial(g, groups, heads, k + 1))
    ensures Acyclic(Partial(g, groups, heads, k))
  {
    var c, f := Partial(g, groups, heads, k), Collapse(groups[k], heads[k]);
    PartialStep(g, groups, heads, k);
    EdgesContract(c, f);
    hide Contract, Partial, Edge, Collapse;
    if a :| Reaches(c, a, a) {
      var p :| PathFromTo(c, p, a, a);
      CycleCollapses(c, Partial(g, groups, heads, k + 1), f, p);
      CycleInGroup(g, groups, heads, k, p);
      assert PathFromTo(g, p, a, a);
      assert Reaches(g, a, a);
    }
  }

  lemma CycleInGroup(g: Deps, groups: seq<set<int>>, heads: seq<int>, k: nat, p: seq<int>)
    requires Disjoint(groups, heads) && k < |groups|
    requires IsPath(Partial(g, groups, heads, k), p) && |p| >= 2
    requires forall i :: 0 <= i < |p| ==> Collapse(groups[k], heads[k])(p[i]) == Collapse(groups[k], heads[k])(p[0])
    ensures IsPath(g, p)
  {
    var c := Partial(g, groups, heads, k);
    assert Edge(c, p[0], p[0 + 1]);
    ContractEdge(g, Rep(groups[..k], heads[..k]), p[0], p[1]);
    assert p[0] in groups[k] && p[1] in groups[k];
    assert forall i :: 0 <= i < |p| ==> p[i] in groups[k];
    forall i | 0 <= i < |p| - 1
      ensures Edge(g, p[i], p[i + 1])
    {
      assert Edge(c, p[i], p[i + 1]);
      ContractEdge(g, Rep(groups[..k], heads[..k]), p[i], p[i + 1]);
      var x, d :| Edge(g, x, d) && Rep(groups[..k], heads[..k])(x) == p[i] && Rep(groups[..k], heads[..k])(d) == p[i + 1];
      Untouched(groups, heads, k, x);
      Untouched(groups, heads, k, d);
    }
  }

  /** Nothing but a member of a later group itself is represented by that member. */
  lemma Untouched(groups: seq<set<int>>, heads: seq<int>, k: nat, x: int)
    requires Disjoint(groups, heads) && k < |groups|
    requires RepOf(groups[..k], heads[..k], x) in groups[k]
    ensures RepOf(groups[..k], heads[..k], x) == x
  {
    RepMeans(groups[..k], heads[..k], x);
    forall i | 0 <= i < k
      ensures groups[..k][i] == groups[i] && heads[..k][i] == heads[i] && heads[i] !in groups[k]
    {
      assert heads[i] in groups[i] && groups[i] !! groups[k];
    }
  }

  /** Each group is closed in the graph as contracted by the groups before it. */
  ghost predicate ClosedOneByOne(g: Deps, groups: seq<set<int>>, heads: seq<int>)
    requires |groups| == |heads|
  {
    forall k :: 0 <= k < |groups| ==> Closed(Partial(g, groups, heads, k), groups[k])
  }

  lemma {:induction false} AllPartialsAcyclic(g: Deps, groups: seq<set<int>>, heads: seq<int>, k: nat)
    requires Acyclic(g) && Disjoint(groups, heads) && k <= |groups|
    requires Acyclic(Partial(g, groups, heads, |groups|))
    ensures Acyclic(Partial(g, groups, heads, k))
    decreases |groups| - k
  {
    if k < |groups| {
      AllPartialsAcyclic(g, groups, heads, k + 1);
      AcyclicBefore(g, groups, heads, k);
    }
  }

  lemma {:induction false} ClosedKeepsAcyclic(g: Deps, groups: seq<set<int>>, heads: seq<int>, k: nat)
    requires Acyclic(g) && Disjoint(groups, heads) && k <= |groups| && ClosedOneByOne(g, groups, heads)
    ensures Acyclic(Partial(g, groups, heads, k))
  {
    hide Contract, Partial, Closed, Acyclic, Rep, RepOf;
    if k == 0 {
      PartialZero(g, groups, heads);
    } else {
      ClosedUpTo(g, groups, heads, k - 1);
      ClosedKeepsAcyclic(g, groups, heads, k - 1);
      PartialStep(g, groups, heads, k - 1);
      ClosureCheckIsExact(Partial(g, groups, heads, k - 1), groups[k - 1], heads[k - 1]);
    }
  }

  lemma PartialZero(g: Deps, groups: seq<set<int>>, heads: seq<int>)
    requires |groups| == |heads| && Acyclic(g)
    ensures Acyclic(Partial(g, groups, heads, 0))
  {
    NothingContracted(g, Rep(groups[..0], heads[..0]));
  }

  lemma PartialAll(g: Deps, groups: seq<set<int>>, heads: seq<int>)
    requires |groups| == |heads|
    ensures Partial(g, groups, heads, |groups|) == Contract(g, Rep(groups, heads))
  {
    assert groups[..|groups|] == groups && heads[..|heads|] == heads;
  }

  lemma ClosedUpTo(g: Deps, groups: seq<set<int>>, heads: seq<int>, k: nat)
    requires Disjoint(groups, heads) && ClosedOneByOne(g, groups, heads) && k < |groups|
    ensures Closed(Partial(g, groups, heads, k), groups[k]) && heads[k] in groups[k] && |groups| == |heads|
  {
  }

  lemma NothingContracted(g: Deps, rep: int -> int)
    requires Acyclic(g) && forall x :: rep(x) == x
    ensures Acyclic(Contract(g, rep))
  {
    var c := Contract(g, rep);
    if a :| Reaches(c, a, a) {
      var p :| PathFromTo(c, p, a, a);
      forall i | 0 <= i < |p| - 1
        ensures Edge(g, p[i], p[i + 1])
      {
        assert Edge(c, p[i], p[i + 1]);
        ContractEdge(g, rep, p[i], p[i + 1]);
      }
      assert PathFromTo(g, p, a, a);
      assert Reaches(g, a, a);
    }
  }

  /** Collapsing several disjoint groups at once leaves an acyclic graph acyclic exactly when each
      is closed in the graph contracted so far. Being closed in the original graph is not enough. */
  lemma JointContractionIsExact(g: Deps, groups: seq<set<int>>, heads: seq<int>)
    requires Acyclic(g) && Disjoint(groups, heads)
    ensures Acyclic(Contract(g, Rep(groups, heads))) <==> ClosedOneByOne(g, groups, heads)
  {
    hide Contract, Partial, Acyclic, Closed;
    PartialAll(g, groups, heads);
    if ClosedOneByOne(g, groups, heads) {
      ClosedKeepsAcyclic(g, groups, heads, |groups|);
    }
    if Acyclic(Contract(g, Rep(groups, heads))) {
      forall k | 0 <= k < |groups|
        ensures Closed(Partial(g, groups, heads, k), groups[k])
      {
        AllPartialsAcyclic(g, groups, heads, k);
        AllPartialsAcyclic(g, groups, heads, k + 1);
        PartialStep(g, groups, heads, k);
        ClosureCheckIsExact(Partial(g, groups, heads, k), groups[k], heads[k]);
      }
    }
  }

  /** 1 depends on 0 and 3 on 2 inside the groups {0, 1} and {2, 3}; 3 -> 0 and 1 -> 2 run across. */
  ghost function ClashGraph(): Deps { map[0 := {}, 1 := {0, 2}, 2 := {}, 3 := {2, 0}] }

  lemma ClashReaches(x: int, y: int)
    requires Reaches(ClashGraph(), x, y)
    ensures (x == 1 || x == 3) && (y == 0 || y == 2)
  {
    var g := ClashGraph();
    var p :| PathFromTo(g, p, x, y);
    assert Edge(g, p[0], p[0 + 1]);
    assert Edge(g, p[|p| - 2], p[|p| - 2 + 1]);
  }

  /** Two groups each closed in the graph, whose joint contraction is cyclic all the same. */
  lemma ClosedGroupsCanClash()
    ensures var g := ClashGraph(); var groups, heads := [{0, 1}, {2, 3}], [0, 2];
      && Acyclic(g) && Disjoint(groups, heads)
      && Closed(g, groups[0]) && Closed(g, groups[1])
      && !Acyclic(Contract(g, Rep(groups, heads)))
  {
    var g := ClashGraph();
    var groups, heads := [{0, 1}, {2, 3}], [0, 2];
    forall x, y | Reaches(g, x, y)
      ensures (x == 1 || x == 3) && (y == 0 || y == 2)
    {
      ClashReaches(x, y);
    }
    ClashCycle(groups, heads);
  }

  lemma ClashReps(groups: seq<set<int>>, heads: seq<int>)
    requires groups == [{0, 1}, {2, 3}] && heads == [0, 2]
    ensures Disjoint(groups, heads)
    ensures var rep := Rep(groups, heads); rep(0) == 0 && rep(1) == 0 && rep(2) == 2 && rep(3) == 2
  {
    hide RepOf;
    forall x
      ensures x in groups[0] ==> RepOf(groups, heads, x) == heads[0]
      ensures x in groups[1] ==> RepOf(groups, heads, x) == heads[1]
    {
      RepMeans(groups, heads, x);
    }
    assert 0 in groups[0] && 1 in groups[0] && 2 in groups[1] && 3 in groups[1];
  }

  lemma ClashEdges()
    ensures Edge(ClashGraph(), 1, 2) && Edge(ClashGraph(), 3, 0)
  {
  }

  lemma ClashCycle(groups: seq<set<int>>, heads: seq<int>)
    requires groups == [{0, 1}, {2, 3}] && heads == [0, 2]
    ensures Disjoint(groups, heads) && !Acyclic(Contract(ClashGraph(), Rep(groups, heads)))
  {
    hide *;
    var g, rep := ClashGraph(), Rep(groups, heads);
    var c := Contract(g, rep);
    ClashReps(groups, heads);
    ClashEdges();
    ContractEdge(g, rep, 0, 2);
    ContractEdge(g, rep, 2, 0);
    EdgeReaches(c, 0, 2);
    EdgeReaches(c, 2, 0);
    ReachesTransitive(c, 0, 2, 0);
    ReachesIsCycle(c, 0);
  }

  lemma ReachesIsCycle(g: Deps, a: int)
    requires Reaches(g, a, a)
    ensures !Acyclic(g)
  {
  }
}
