/** Directed graphs given by direct dependencies, the common ground of the graph rewriters.

    A node maps to the set of nodes it depends on. Dependencies that are not nodes themselves
    are dangling references: no path goes through them, because an edge needs both ends. */
module Digraph {

  type Deps = map<int, set<int>>

  ghost predicate Edge(g: Deps, a: int, b: int) {
    a in g && b in g && b in g[a]
  }

  /** A nonempty sequence of nodes each of which depends on the next one. */
  ghost predicate IsPath(g: Deps, p: seq<int>) {
    && |p| >= 1
    && forall i {:trigger p[i]} :: 0 <= i < |p| - 1 ==> Edge(g, p[i], p[i + 1])
  }

  ghost predicate PathFromTo(g: Deps, p: seq<int>, a: int, b: int) {
    IsPath(g, p) && |p| >= 2 && p[0] == a && p[|p| - 1] == b
  }

  /** `a` depends on `b` through one or more edges. */
  ghost predicate Reaches(g: Deps, a: int, b: int) {
    exists p :: PathFromTo(g, p, a, b)
  }

  ghost predicate Acyclic(g: Deps) {
    forall a :: !Reaches(g, a, a)
  }

  lemma EdgeReaches(g: Deps, a: int, b: int)
    requires Edge(g, a, b)
    ensures Reaches(g, a, b)
  {
    assert PathFromTo(g, [a, b], a, b);
  }

  lemma PathJoin(g: Deps, p: seq<int>, q: seq<int>)
    requires IsPath(g, p) && IsPath(g, q) && p[|p| - 1] == q[0]
    ensures IsPath(g, p + q[1..])
  {
    var r := p + q[1..];
    forall i | 0 <= i < |r| - 1
      ensures Edge(g, r[i], r[i + 1])
    {
      if i >= |p| - 1 {
        assert r[i] == q[i - (|p| - 1)] && r[i + 1] == q[i - (|p| - 1) + 1];
      }
    }
  }

  lemma ReachesTransitive(g: Deps, a: int, b: int, c: int)
    requires Reaches(g, a, b) && Reaches(g, b, c)
    ensures Reaches(g, a, c)
  {
    var p :| PathFromTo(g, p, a, b);
    var q :| PathFromTo(g, q, b, c);
    PathJoin(g, p, q);
    assert PathFromTo(g, p + q[1..], a, c);
  }

  lemma SubPathReaches(g: Deps, p: seq<int>, i: nat, j: nat)
    requires IsPath(g, p) && i < j < |p|
    ensures Reaches(g, p[i], p[j])
  {
    var q := p[i..j + 1];
    assert forall k {:trigger q[k]} :: 0 <= k < |q| ==> q[k] == p[i + k];
    assert PathFromTo(g, q, p[i], p[j]);
  }

  /** A measure that drops along every edge excludes cycles. */
  lemma RankedIsAcyclic(g: Deps, rank: int -> int)
    requires forall a, b :: Edge(g, a, b) ==> rank(b) < rank(a)
    ensures Acyclic(g)
  {
    forall a
      ensures !Reaches(g, a, a)
    {
      if Reaches(g, a, a) {
        var p :| PathFromTo(g, p, a, a);
        RankDropsAlongPath(g, rank, p, |p| - 1);
      }
    }
  }

  lemma RankDropsAlongPath(g: Deps, rank: int -> int, p: seq<int>, j: nat)
    requires forall a, b :: Edge(g, a, b) ==> rank(b) < rank(a)
    requires IsPath(g, p) && j < |p|
    ensures rank(p[j]) <= rank(p[0]) - j
  {
    if j > 0 {
      RankDropsAlongPath(g, rank, p, j - 1);
      assert Edge(g, p[j - 1], p[j - 1 + 1]);
    }
  }

  /** Paths survive a map that keeps or collapses every edge; between ends with different
      images at least one edge survives. */
  lemma {:induction false} ReachesMaps(g: Deps, h: Deps, f: int -> int, p: seq<int>)
    requires forall a, b :: Edge(g, a, b) ==> f(a) == f(b) || Edge(h, f(a), f(b))
    requires IsPath(g, p)
    requires f(p[0]) != f(p[|p| - 1])
    ensures Reaches(h, f(p[0]), f(p[|p| - 1]))
    decreases |p|
  {
    var q := p[1..];
    assert Edge(g, p[0], p[0 + 1]);
    assert forall k {:trigger q[k]} :: 0 <= k < |q| ==> q[k] == p[k + 1];
    if f(p[1]) == f(p[|p| - 1]) {
      EdgeReaches(h, f(p[0]), f(p[1]));
    } else {
      ReachesMaps(g, h, f, q);
      if f(p[0]) != f(p[1]) {
        EdgeReaches(h, f(p[0]), f(p[1]));
        ReachesTransitive(h, f(p[0]), f(p[1]), f(p[|p| - 1]));
      }
    }
  }

  /** If the image graph is acyclic, all nodes of a cycle have one image. */
  lemma CycleCollapses(g: Deps, h: Deps, f: int -> int, p: seq<int>)
    requires forall a, b :: Edge(g, a, b) ==> f(a) == f(b) || Edge(h, f(a), f(b))
    requires Acyclic(h)
    requires IsPath(g, p) && p[0] == p[|p| - 1]
    ensures forall i :: 0 <= i < |p| ==> f(p[i]) == f(p[0])
  {
    forall i | 0 <= i < |p|
      ensures f(p[i]) == f(p[0])
    {
      if f(p[i]) != f(p[0]) {
        var a, b := p[..i + 1], p[i..];
        assert forall k {:trigger a[k]} :: 0 <= k < |a| ==> a[k] == p[k];
        assert forall k {:trigger b[k]} :: 0 <= k < |b| ==> b[k] == p[i + k];
        ReachesMaps(g, h, f, a);
        ReachesMaps(g, h, f, b);
        ReachesTransitive(h, f(p[0]), f(p[i]), f(p[0]));
      }
    }
  }

  /** An injective relabelling changes nothing about cycles. */
  lemma RelabelKeepsCycles(g: Deps, h: Deps, f: int -> int)
    requires forall a, b :: a in g && b in g && f(a) == f(b) ==> a == b
    requires forall a :: a in g ==> f(a) in h
    requires forall y :: y in h ==> exists a :: a in g && f(a) == y
    requires forall a, b :: a in g && b in g ==> (Edge(g, a, b) <==> Edge(h, f(a), f(b)))
    ensures Acyclic(g) <==> Acyclic(h)
  {
    if !Acyclic(g) {
      var a :| Reaches(g, a, a);
      var p :| PathFromTo(g, p, a, a);
      RelabelPath(g, h, f, p);
      assert !Acyclic(h);
    }
    if !Acyclic(h) {
      var y :| Reaches(h, y, y);
      var q :| PathFromTo(h, q, y, y);
      var p := UnlabelPath(g, h, f, q);
      assert f(p[0]) == f(p[|p| - 1]);
      assert PathFromTo(g, p, p[0], p[0]);
      assert Reaches(g, p[0], p[0]);
    }
  }

  lemma RelabelPath(g: Deps, h: Deps, f: int -> int, p: seq<int>)
    requires forall a, b :: a in g && b in g ==> (Edge(g, a, b) <==> Edge(h, f(a), f(b)))
    requires IsPath(g, p) && |p| >= 2
    ensures Reaches(h, f(p[0]), f(p[|p| - 1]))
  {
    var q := seq(|p|, i requires 0 <= i < |p| => f(p[i]));
    forall i | 0 <= i < |q| - 1
      ensures Edge(h, q[i], q[i + 1])
    {
      assert Edge(g, p[i], p[i + 1]);
    }
    assert PathFromTo(h, q, f(p[0]), f(p[|p| - 1]));
  }

  lemma {:induction false} UnlabelPath(g: Deps, h: Deps, f: int -> int, q: seq<int>) returns (p: seq<int>)
    requires forall a, b :: a in g && b in g && f(a) == f(b) ==> a == b
    requires forall y :: y in h ==> exists a :: a in g && f(a) == y
    requires forall a, b :: a in g && b in g ==> (Edge(g, a, b) <==> Edge(h, f(a), f(b)))
    requires IsPath(h, q) && |q| >= 2
    ensures IsPath(g, p) && |p| == |q|
    ensures forall i :: 0 <= i < |p| ==> p[i] in g && f(p[i]) == q[i]
  {
    assert Edge(h, q[|q| - 2], q[|q| - 2 + 1]);
    var z :| z in g && f(z) == q[|q| - 1];
    if |q| == 2 {
      var y :| y in g && f(y) == q[0];
      p := [y, z];
    } else {
      var r := q[..|q| - 1];
      assert forall k {:trigger r[k]} :: 0 <= k < |r| ==> r[k] == q[k];
      var s := UnlabelPath(g, h, f, r);
      p := s + [z];
      assert Edge(g, s[|s| - 1], z);
      forall i | 0 <= i < |p| - 1
        ensures Edge(g, p[i], p[i + 1])
      {
        if i < |s| - 1 { assert Edge(g, s[i], s[i + 1]); }
      }
    }
  }

  ghost predicate DependsInto(g: Deps, a: int, s: set<int>) {
    exists b :: b in s && Edge(g, a, b)
  }

  /** A nonempty set each of whose members depends on a member lies on a cycle: walk inside
      the set until a node repeats. */
  lemma StuckSetHasCycle(g: Deps, stuck: set<int>, start: int)
    requires start in stuck
    requires forall a :: a in stuck ==> DependsInto(g, a, stuck)
    ensures !Acyclic(g)
  {
    var p := Walk(g, stuck, start, |stuck| + 1);
    if forall i, j :: 0 <= i < j < |p| ==> p[i] != p[j] {
      DistinctFits(p, stuck);
      assert false;
    }
    var i, j :| 0 <= i < j < |p| && p[i] == p[j];
    SubPathReaches(g, p, i, j);
  }

  lemma Walk(g: Deps, stuck: set<int>, start: int, n: nat) returns (p: seq<int>)
    requires start in stuck && n >= 1
    requires forall a :: a in stuck ==> DependsInto(g, a, stuck)
    ensures IsPath(g, p) && |p| == n
    ensures forall i :: 0 <= i < |p| ==> p[i] in stuck
  {
    if n == 1 {
      p := [start];
    } else {
      var q := Walk(g, stuck, start, n - 1);
      var b :| b in stuck && Edge(g, q[|q| - 1], b);
      PathJoin(g, q, [q[|q| - 1], b]);
      p := q + [b];
      assert q + [q[|q| - 1], b][1..] == p;
    }
  }

  lemma DistinctFits(p: seq<int>, s: set<int>)
    requires forall i :: 0 <= i < |p| ==> p[i] in s
    requires forall i, j :: 0 <= i < j < |p| ==> p[i] != p[j]
    ensures |p| <= |s|
  {
    if |p| > 0 {
      DistinctFits(p[1..], s - {p[0]});
    }
  }
}
