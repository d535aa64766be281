/** The stable topological sort of pipeline/graph_edit.py.

    `Order` is the worklist loop on op indices, `Toposort` the whole operation on a graph. The
    theorems say what the order is (the lexicographically least topological one), when the sort
    refuses (exactly on a dependency cycle, a tensor made twice or a tensor nobody makes), and
    that sorting twice is sorting once. */
module Toposort {
  import opened Ir
  import opened Digraph

  datatype PatchError = Invalid | Missing | Cycle | Stale | Exists

  // ---------------------------------------------------------------- orders of indices

  type DepSets = seq<set<nat>>

  /** Every dependency is another index of the list. */
  ghost predicate WellFormed(deps: DepSets) {
    forall i :: 0 <= i < |deps| ==> forall d :: d in deps[i] ==> d < |deps| && d != i
  }

  function AsDeps(deps: DepSets): Deps {
    map i | 0 <= i < |deps| :: set d | d in deps[i] :: d as int
  }

  ghost predicate Ready(deps: DepSets, done: seq<nat>, i: nat) {
    i < |deps| && i !in done && forall d :: d in deps[i] ==> d in done
  }

  ghost predicate IsNext(deps: DepSets, done: seq<nat>, i: nat) {
    Ready(deps, done, i) && forall j :: Ready(deps, done, j) ==> i <= j
  }

  /** Each element is the least ready index at its time. */
  ghost predicate Greedy(deps: DepSets, order: seq<nat>) {
    forall k :: 0 <= k < |order| ==> IsNext(deps, order[..k], order[k])
  }

  ghost predicate Exhausted(deps: DepSets, order: seq<nat>) {
    forall i :: !Ready(deps, order, i)
  }

  ghost predicate IsPermutation(order: seq<nat>, n: nat) {
    && |order| == n
    && (forall k :: 0 <= k < n ==> order[k] < n)
    && (forall j, k :: 0 <= j < k < n ==> order[j] != order[k])
  }

  /** A permutation of the indices in which everything comes after its dependencies. */
  ghost predicate IsTopological(deps: DepSets, order: seq<nat>) {
    IsPermutation(order, |deps|) && forall k :: 0 <= k < |order| ==> Ready(deps, order[..k], order[k])
  }

  ghost predicate LexLess(a: seq<nat>, b: seq<nat>) {
    exists k :: 0 <= k < |a| && k < |b| && a[..k] == b[..k] && a[k] < b[k]
  }

  // ---------------------------------------------------------------- the loop

  /** The least element, as heapq pops it. */
  method PopMin(heap: set<nat>) returns (m: nat, rest: set<nat>)
    requires heap != {}
    ensures m in heap && rest == heap - {m}
    ensures forall x :: x in heap ==> m <= x
  {
    m :| m in heap;
    var todo := heap - {m};
    while todo != {}
      invariant m in heap && todo <= heap
      invariant forall x :: x in heap ==> m <= x || x in todo
    {
      var x :| x in todo;
      if x < m { m := x; }
      todo := todo - {x};
    }
    rest := heap - {m};
  }

  function Users(users: map<nat, seq<nat>>, i: nat): seq<nat> {
    if i in users then users[i] else []
  }

  /** users[d] lists, without repetition, the indices below `upto` that depend on d, and those
      of `upto` itself that have been added so far. */
  ghost predicate UsersUpTo(deps: DepSets, users: map<nat, seq<nat>>, upto: nat, added: set<nat>)
    requires upto <= |deps|
  {
    forall d: nat, j: nat :: j in Users(users, d) <==> ((j < upto && d in deps[j]) || (j == upto && d in added))
  }

  method InvertDeps(deps: DepSets) returns (users: map<nat, seq<nat>>)
    ensures UsersUpTo(deps, users, |deps|, {})
  {
    users := map[];
    assert forall d: nat :: Users(users, d) == [];
    for i := 0 to |deps|
      invariant UsersUpTo(deps, users, i, {})
    {
      var todo := deps[i];
      while todo != {}
        invariant todo <= deps[i]
        invariant UsersUpTo(deps, users, i, deps[i] - todo)
      {
        var x :| x in todo;
        ghost var before := users;
        users := users[x := Users(users, x) + [i]];
        assert forall d :: d != x ==> Users(users, d) == Users(before, d);
        todo := todo - {x};
      }
      assert deps[i] - {} == deps[i];
    }
  }

  /** Indices whose remaining dependencies are all out of the way and that are not yet placed. */
  ghost predicate IsReadySet(deps: DepSets, waiting: map<nat, set<nat>>, done: seq<nat>, ready: set<nat>) {
    forall j: nat :: j in ready <==> (j < |deps| && j !in done && (j in waiting ==> waiting[j] == {}))
  }

  /** What is still in the way of each index once `done` has been placed. */
  ghost predicate WaitsFor(deps: DepSets, waiting: map<nat, set<nat>>, done: seq<nat>) {
    && (forall j: nat :: j in waiting <==> j < |deps| && deps[j] != {})
    && (forall j: nat, d: nat :: j in waiting ==> (d in waiting[j] <==> d in deps[j] && d !in done))
  }

  lemma ReadySetIsReady(deps: DepSets, waiting: map<nat, set<nat>>, done: seq<nat>, ready: set<nat>)
    requires WaitsFor(deps, waiting, done) && IsReadySet(deps, waiting, done, ready)
    ensures forall j: nat :: j in ready <==> Ready(deps, done, j)
  {
    forall j: nat | j < |deps| && j !in done
      ensures j in ready <==> Ready(deps, done, j)
    {
      if j in waiting && waiting[j] != {} {
        var d :| d in waiting[j];
        assert d in deps[j] && d !in done;
      }
    }
  }

  /** Crosses `i`, just placed last, off the indices that waited for it. */
  method Release(deps: DepSets, i: nat, us: seq<nat>, w0: map<nat, set<nat>>, r0: set<nat>, ghost done: seq<nat>)
    returns (waiting: map<nat, set<nat>>, ready: set<nat>)
    requires WellFormed(deps)
    requires forall j: nat :: j in us <==> j < |deps| && i in deps[j]
    requires WaitsFor(deps, w0, done)
    requires i < |deps| && forall j: nat :: j in us ==> j !in done && j != i
    requires IsReadySet(deps, w0, done + [i], r0)
    ensures WaitsFor(deps, waiting, done + [i])
    ensures IsReadySet(deps, waiting, done + [i], ready)
  {
    waiting, ready := w0, r0;
    for n := 0 to |us|
      invariant waiting.Keys == w0.Keys
      invariant forall j: nat :: j in waiting ==> waiting[j] == if j in us[..n] then w0[j] - {i} else w0[j]
      invariant IsReadySet(deps, waiting, done + [i], ready)
    {
      var j := us[n];
      assert j in us;
      assert us[..n + 1] == us[..n] + [j];
      waiting := waiting[j := waiting[j] - {i}];
      if waiting[j] == {} {
        ready := ready + {j};
      }
    }
    assert us[..|us|] == us;
    forall j: nat, d: nat | j in waiting
      ensures d in waiting[j] <==> d in deps[j] && d !in done + [i]
    {
      assert d in done + [i] <==> d in done || d == i;
      assert d in waiting[j] <==> d in w0[j] && !(j in us && d == i);
    }
  }

  method Order(deps: DepSets) returns (order: seq<nat>)
    requires WellFormed(deps)
    ensures Greedy(deps, order) && Exhausted(deps, order)
  {
    var users := InvertDeps(deps);
    var waiting: map<nat, set<nat>> := map i: nat | 0 <= i < |deps| && deps[i] != {} :: deps[i];
    var ready := set i: nat | 0 <= i < |deps| && deps[i] == {};
    order := [];
    ghost var left := Range(|deps|);
    while ready != {}
      invariant Greedy(deps, order)
      invariant forall j: nat :: j in left <==> j < |deps| && j !in order
      invariant WaitsFor(deps, waiting, order)
      invariant IsReadySet(deps, waiting, order, ready)
      decreases left
    {
      var i;
      ReadySetIsReady(deps, waiting, order, ready);
      i, ready := PopMin(ready);
      assert IsNext(deps, order, i);
      var us := Users(users, i);
      UsersAreOpen(deps, order, i);
      waiting, ready := Release(deps, i, us, waiting, ready, order);
      GreedyExtends(deps, order, i);
      order := order + [i];
      left := left - {i};
    }
    ReadySetIsReady(deps, waiting, order, ready);
  }

  lemma GreedyExtends(deps: DepSets, order: seq<nat>, i: nat)
    requires Greedy(deps, order) && IsNext(deps, order, i)
    ensures Greedy(deps, order + [i])
  {
    var longer := order + [i];
    forall k | 0 <= k < |longer|
      ensures IsNext(deps, longer[..k], longer[k])
    {
      assert longer[..k] == order[..k];
      if k == |order| { assert order[..k] == order; }
    }
  }

  /** Nothing that depends on an unplaced index has been placed. */
  lemma UsersAreOpen(deps: DepSets, order: seq<nat>, i: nat)
    requires Greedy(deps, order) && i !in order
    ensures forall j: nat :: j < |deps| && i in deps[j] ==> j !in order
  {
    forall j: nat | j < |deps| && i in deps[j]
      ensures j !in order
    {
      if j in order {
        var k := IndexOf(order, j);
        assert false;
      }
    }
  }

  // ---------------------------------------------------------------- what the order is

  lemma GreedyIsDistinct(deps: DepSets, order: seq<nat>)
    requires Greedy(deps, order)
    ensures forall k :: 0 <= k < |order| ==> order[k] < |deps|
    ensures forall j, k :: 0 <= j < k < |order| ==> order[j] != order[k]
  {
    forall j, k | 0 <= j < k < |order|
      ensures order[j] != order[k]
    {
      assert Ready(deps, order[..k], order[k]);
      assert order[j] == order[..k][j];
    }
  }

  lemma {:induction false} DistinctCount(order: seq<nat>, n: nat)
    requires forall k :: 0 <= k < |order| ==> order[k] < n
    requires forall j, k :: 0 <= j < k < |order| ==> order[j] != order[k]
    ensures |order| <= n
    ensures (forall i :: 0 <= i < n ==> i in order) <==> |order| == n
  {
    var all := Range(n);
    var got := set k | 0 <= k < |order| :: order[k];
    ImageSize(order);
    SubsetSize(got, all);
    if |order| == n {
      forall i: nat | i < n
        ensures i in order
      {
        if i !in order {
          SubsetSize(got, all - {i});
        }
      }
    }
    if forall i :: 0 <= i < n ==> i in order {
      forall i | i in all
        ensures i in got
      {
        assert i in order;
      }
      assert got == all;
    }
  }

  function Range(n: nat): (r: set<nat>)
    ensures forall i: nat :: i in r <==> i < n
    ensures |r| == n
  {
    if n == 0 then {} else Range(n - 1) + {n - 1}
  }

  lemma {:induction false} ImageSize(order: seq<nat>)
    requires forall j, k :: 0 <= j < k < |order| ==> order[j] != order[k]
    ensures |(set k | 0 <= k < |order| :: order[k])| == |order|
  {
    if |order| > 0 {
      var m := |order| - 1;
      var s := order[..m];
      ImageSize(s);
      assert (set k | 0 <= k < |order| :: order[k]) == (set k | 0 <= k < |s| :: s[k]) + {order[m]};
    }
  }

  lemma {:induction false} SubsetSize<T>(a: set<T>, b: set<T>)
    requires a <= b
    ensures |a| <= |b|
  {
    assert b == a + (b - a);
  }

  /** The loop places every index exactly when the dependencies have no cycle. */
  lemma CompleteIffAcyclic(deps: DepSets, order: seq<nat>)
    requires WellFormed(deps)
    requires Greedy(deps, order) && Exhausted(deps, order)
    ensures |order| == |deps| <==> Acyclic(AsDeps(deps))
    ensures Acyclic(AsDeps(deps)) ==> IsTopological(deps, order)
  {
    GreedyIsDistinct(deps, order);
    DistinctCount(order, |deps|);
    if |order| == |deps| {
      OrderedIsAcyclic(deps, order);
    } else {
      var start: nat :| start < |deps| && start !in order;
      var stuck := set i | i in Range(|deps|) && i !in order :: i as int;
      forall a | a in stuck
        ensures DependsInto(AsDeps(deps), a, stuck)
      {
        assert !Ready(deps, order, a);
        var d :| d in deps[a] && d !in order;
        assert Edge(AsDeps(deps), a, d) && d in stuck;
      }
      StuckSetHasCycle(AsDeps(deps), stuck, start);
    }
  }

  lemma OrderedIsAcyclic(deps: DepSets, order: seq<nat>)
    requires WellFormed(deps) && IsTopological(deps, order)
    ensures Acyclic(AsDeps(deps))
  {
    DistinctCount(order, |deps|);
    var rank := (x: int) => if x >= 0 && x in order then IndexOf(order, x) else 0;
    forall a, b | Edge(AsDeps(deps), a, b)
      ensures rank(b) < rank(a)
    {
      assert a in order && b in order;
      var ka := IndexOf(order, a);
      assert Ready(deps, order[..ka], order[ka]);
      assert b in order[..ka];
      var kb :| 0 <= kb < ka && order[..ka][kb] == b;
      assert order[kb] == b;
    }
    RankedIsAcyclic(AsDeps(deps), rank);
  }

  function IndexOf(order: seq<nat>, x: nat): (k: nat)
    requires x in order
    ensures k < |order| && order[k] == x
    ensures forall j :: 0 <= j < k ==> order[j] != x
  {
    if order[0] == x then 0 else 1 + IndexOf(order[1..], x)
  }

  /** Among all topological orders the loop finds the lexicographically least. */
  lemma {:induction false} LexicographicallyLeast(deps: DepSets, order: seq<nat>, other: seq<nat>)
    requires WellFormed(deps)
    requires Greedy(deps, order) && Exhausted(deps, order)
    requires IsTopological(deps, other)
    ensures IsTopological(deps, order)
    ensures other == order || LexLess(order, other)
  {
    OrderedIsAcyclic(deps, other);
    CompleteIffAcyclic(deps, order);
    FirstDifference(deps, order, other, 0);
  }

  lemma FirstDifference(deps: DepSets, order: seq<nat>, other: seq<nat>, k: nat)
    requires Greedy(deps, order) && IsTopological(deps, order) && IsTopological(deps, other)
    requires k <= |order| && order[..k] == other[..k]
    ensures other == order || LexLess(order, other)
    decreases |order| - k
  {
    if k == |order| {
      assert order == order[..k] && other == other[..k];
    } else {
      assert IsNext(deps, order[..k], order[k]) && Ready(deps, other[..k], other[k]);
      if order[k] == other[k] {
        assert order[..k + 1] == order[..k] + [order[k]];
        assert other[..k + 1] == other[..k] + [other[k]];
        FirstDifference(deps, order, other, k + 1);
      } else {
        assert LexLess(order, other);
      }
    }
  }

  lemma PrefixOfIdentity(order: seq<nat>, k: nat)
    requires k < |order| && order[..k] == seq(k, i => i)
    requires forall i, j :: 0 <= i < j < |order| ==> order[i] != order[j]
    ensures order[k] >= k
  {
    if order[k] < k {
      InIdentity(k, order[k]);
    }
  }

  lemma InIdentity(k: nat, i: nat)
    requires i < k
    ensures i in seq(k, i => i)
  {
    var s: seq<nat> := seq(k, i => i);
    assert s[i] == i;
  }

  /** A list that is already in order stays as it is. */
  lemma SortedStays(deps: DepSets, order: seq<nat>)
    requires WellFormed(deps)
    requires forall i :: 0 <= i < |deps| ==> forall d :: d in deps[i] ==> d < i
    requires Greedy(deps, order) && Exhausted(deps, order)
    ensures order == seq(|deps|, i => i)
  {
    var id: seq<nat> := seq(|deps|, i => i);
    forall k | 0 <= k < |id|
      ensures Ready(deps, id[..k], id[k])
    {
      forall d | d in deps[k]
        ensures d in id[..k]
      {
        assert id[..k][d] == d;
      }
    }
    assert IsTopological(deps, id);
    LexicographicallyLeast(deps, order, id);
    if k :| 0 <= k < |order| && k < |id| && order[..k] == id[..k] && order[k] < id[k] {
      GreedyIsDistinct(deps, order);
      assert id[..k] == seq(k, i => i);
      PrefixOfIdentity(order, k);
    }
  }

  // ---------------------------------------------------------------- the sort as a function

  lemma {:induction false} GreedyPrefix(deps: DepSets, a: seq<nat>, b: seq<nat>, k: nat)
    requires Greedy(deps, a) && Greedy(deps, b) && Exhausted(deps, a)
    requires k <= |b|
    ensures k <= |a| && a[..k] == b[..k]
  {
    if k > 0 {
      GreedyPrefix(deps, a, b, k - 1);
      assert IsNext(deps, b[..k - 1], b[k - 1]);
      assert a[..|a|] == a;
      if |a| >= k {
        assert IsNext(deps, a[..k - 1], a[k - 1]);
        assert a[..k] == a[..k - 1] + [a[k - 1]] && b[..k] == b[..k - 1] + [b[k - 1]];
      }
    }
  }

  lemma OrderIsUnique(deps: DepSets, a: seq<nat>, b: seq<nat>)
    requires Greedy(deps, a) && Exhausted(deps, a)
    requires Greedy(deps, b) && Exhausted(deps, b)
    ensures a == b
  {
    GreedyPrefix(deps, a, b, |b|);
    GreedyPrefix(deps, b, a, |a|);
    assert a == a[..|a|] && b == b[..|b|];
  }

  ghost predicate HasReady(deps: DepSets, done: seq<nat>) {
    exists i :: Ready(deps, done, i)
  }

  lemma LeastReady(deps: DepSets, done: seq<nat>, i: nat) returns (m: nat)
    requires Ready(deps, done, i)
    ensures IsNext(deps, done, m)
  {
    if j: nat :| j < i && Ready(deps, done, j) {
      m := LeastReady(deps, done, j);
    } else {
      m := i;
    }
  }

  lemma OrderExists(deps: DepSets, done: seq<nat>) returns (order: seq<nat>)
    requires Greedy(deps, done)
    ensures Greedy(deps, order) && Exhausted(deps, order)
    decreases |deps| - |done|
  {
    if HasReady(deps, done) {
      var i :| Ready(deps, done, i);
      var m := LeastReady(deps, done, i);
      GreedyExtends(deps, done, m);
      GreedyIsDistinct(deps, done + [m]);
      DistinctCount(done + [m], |deps|);
      order := OrderExists(deps, done + [m]);
    } else {
      order := done;
    }
  }

  lemma SomeOrder(deps: DepSets)
    ensures exists order :: Greedy(deps, order) && Exhausted(deps, order)
  {
    var order := OrderExists(deps, []);
  }

  ghost function OrderOf(deps: DepSets): (order: seq<nat>)
    ensures Greedy(deps, order) && Exhausted(deps, order)
  {
    SomeOrder(deps);
    var order :| Greedy(deps, order) && Exhausted(deps, order);
    order
  }

  // ---------------------------------------------------------------- on graphs

  ghost predicate Maker(ops: seq<Op>, j: nat, t: Name) {
    j < |ops| && t in Makes(ops[j])
  }

  /** No tensor is made twice, neither by two ops nor twice by one. */
  ghost predicate SingleMaker(ops: seq<Op>) {
    && (forall j, k, t :: Maker(ops, j, t) && Maker(ops, k, t) ==> j == k)
    && (forall j :: 0 <= j < |ops| ==> NoRepeats(Makes(ops[j])))
  }

  predicate NoRepeats<T(==)>(s: seq<T>) {
    forall a, b :: 0 <= a < b < |s| ==> s[a] != s[b]
  }

  function GivenTensors(g: Graph): set<Name> {
    (set t | t in g.inputs) + set t | t in g.tensors && g.tensors[t].const_ != ""
  }

  ghost predicate IsOrphan(g: Graph, i: nat, t: Name) {
    i < |g.ops| && t in g.ops[i].inputs && t !in GivenTensors(g) && forall j :: !Maker(g.ops, j, t)
  }

  ghost predicate HasOrphan(g: Graph) {
    exists i, t :: IsOrphan(g, i, t)
  }

  ghost predicate ReadsFrom(ops: seq<Op>, i: nat, j: nat) {
    i < |ops| && j < |ops| && exists t :: t in ops[i].inputs && t in Makes(ops[j])
  }

  /** The ops an op reads from, itself excepted. */
  ghost function DepsOf(ops: seq<Op>): DepSets {
    seq(|ops|, i requires 0 <= i < |ops| => set j: nat | j in Range(|ops|) && j != i && ReadsFrom(ops, i, j))
  }

  function Pick<T>(ops: seq<T>, order: seq<nat>): (r: seq<T>)
    requires forall k :: 0 <= k < |order| ==> order[k] < |ops|
    ensures |r| == |order| && forall k :: 0 <= k < |r| ==> r[k] == ops[order[k]]
  {
    seq(|order|, k requires 0 <= k < |order| => ops[order[k]])
  }

  /** Op `i` reads `t`, which is no input of the graph, no constant, and made by no op. */
  ghost predicate ReadsNothing(g: Graph, i: nat, t: Name) {
    && i < |g.ops| && t in g.ops[i].inputs && t !in g.inputs && !(t in g.tensors && g.tensors[t].const_ != "")
    && forall o :: o in g.ops ==> t !in o.outputs && t !in o.internal
  }

  /** What is refused, and as what: a tensor made twice, a read of nothing, a cycle, in this order. */
  lemma RefusedAs(g: Graph)
    ensures Sorted(g) == Err(Invalid) <==> !SingleMaker(g.ops)
    ensures Sorted(g) == Err(Missing) <==> SingleMaker(g.ops) && exists i, t :: ReadsNothing(g, i, t)
    ensures Sorted(g) == Err(Cycle) <==> SingleMaker(g.ops) && (forall i, t :: !ReadsNothing(g, i, t)) && !Acyclic(AsDeps(DepsOf(g.ops)))
    ensures Sorted(g).Err? ==> Sorted(g).error in {Invalid, Missing, Cycle}
  {
    forall i: nat, t
      ensures IsOrphan(g, i, t) <==> ReadsNothing(g, i, t)
    {
      OrphanReadsNothing(g, i, t);
    }
    hide SingleMaker, IsOrphan, ReadsNothing;
  }

  lemma OrphanReadsNothing(g: Graph, i: nat, t: Name)
    ensures IsOrphan(g, i, t) <==> ReadsNothing(g, i, t)
  {
    if forall j :: !Maker(g.ops, j, t) {
      forall o | o in g.ops
        ensures t !in o.outputs && t !in o.internal
      {
        var j: nat :| j < |g.ops| && g.ops[j] == o;
        assert !Maker(g.ops, j, t);
      }
    }
    if ReadsNothing(g, i, t) {
      forall j: nat
        ensures !Maker(g.ops, j, t)
      {
        assert j < |g.ops| ==> g.ops[j] in g.ops;
      }
    }
  }

  ghost function Sorted(g: Graph): Result<Graph, PatchError> {
    if !SingleMaker(g.ops) then Err(Invalid)
    else if HasOrphan(g) then Err(Missing)
    else if !Acyclic(AsDeps(DepsOf(g.ops))) then Err(Cycle)
    else
      var order := OrderOf(DepsOf(g.ops));
      GreedyIsDistinct(DepsOf(g.ops), order);
      Ok(g.(ops := Pick(g.ops, order)))
  }

  method IndexMakers(ops: seq<Op>) returns (prod: map<Name, nat>, twice: bool)
    ensures twice <==> !SingleMaker(ops)
    ensures !twice ==> forall t :: (t in prod <==> exists j :: Maker(ops, j, t)) && (t in prod ==> Maker(ops, prod[t], t))
  {
    prod := map[];
    for i := 0 to |ops|
      invariant SingleMaker(ops[..i])
      invariant forall t :: t in prod ==> Maker(ops[..i], prod[t], t)
      invariant forall t, j: nat :: Maker(ops[..i], j, t) ==> t in prod
    {
      var ts := Makes(ops[i]);
      ghost var p0 := prod;
      for n := 0 to |ts|
        invariant NoRepeats(ts[..n])
        invariant forall m :: 0 <= m < n ==> ts[m] !in p0
        invariant forall t :: t in prod <==> t in p0 || t in ts[..n]
        invariant forall t :: t in prod ==> prod[t] == if t in p0 then p0[t] else i
      {
        assert ts[..n + 1] == ts[..n] + [ts[n]];
        if ts[n] in prod {
          twice := true;
          if ts[n] in p0 {
            assert Maker(ops, p0[ts[n]], ts[n]) && Maker(ops, i, ts[n]) && p0[ts[n]] < i;
          } else {
            var m :| 0 <= m < n && ts[m] == ts[n];
            assert !NoRepeats(Makes(ops[i]));
          }
          return;
        }
        prod := prod[ts[n] := i];
      }
      assert ts[..|ts|] == ts;
      ghost var upto := ops[..i + 1];
      assert upto == ops[..i] + [ops[i]];
      forall j: nat, t | Maker(upto, j, t)
        ensures t in prod
        ensures if t in p0 then Maker(ops[..i], j, t) else j == i
      {
        if j < i {
          assert Maker(ops[..i], j, t);
        }
      }
    }
    assert ops[..|ops|] == ops;
    twice := false;
  }

  method Toposort(g: Graph) returns (r: Result<Graph, PatchError>)
    ensures r == Sorted(g)
  {
    var prod, twice := IndexMakers(g.ops);
    if twice { return Err(Invalid); }
    var given := GivenTensors(g);
    var deps: DepSets := [];
    for i := 0 to |g.ops|
      invariant |deps| == i
      invariant forall k :: 0 <= k < i ==> deps[k] == DepsOf(g.ops)[k]
      invariant forall k: nat, t :: k < i ==> !IsOrphan(g, k, t)
    {
      var d: set<nat> := {};
      var ins := g.ops[i].inputs;
      for n := 0 to |ins|
        invariant forall j: nat :: j in d <==> j != i && exists m :: 0 <= m < n && ins[m] in prod && prod[ins[m]] == j
        invariant forall m :: 0 <= m < n ==> ins[m] in prod || ins[m] in given
      {
        if ins[n] in prod {
          if prod[ins[n]] != i { d := d + {prod[ins[n]]}; }
        } else if ins[n] !in given {
          assert IsOrphan(g, i, ins[n]);
          return Err(Missing);
        }
      }
      forall j: nat
        ensures j in d <==> j in DepsOf(g.ops)[i]
      {
        if j in DepsOf(g.ops)[i] {
          var t :| t in ins && t in Makes(g.ops[j]);
          assert Maker(g.ops, j, t) && Maker(g.ops, prod[t], t);
        }
        if j in d {
          var m :| 0 <= m < |ins| && ins[m] in prod && prod[ins[m]] == j;
          assert Maker(g.ops, j, ins[m]);
          assert ReadsFrom(g.ops, i, j);
        }
      }
      deps := deps + [d];
    }
    assert deps == DepsOf(g.ops);
    var order := Order(deps);
    CompleteIffAcyclic(deps, order);
    GreedyIsDistinct(deps, order);
    OrderIsUnique(deps, order, OrderOf(deps));
    if |order| != |g.ops| { return Err(Cycle); }
    return Ok(g.(ops := Pick(g.ops, order)));
  }

  /** Everything an op reads from another op was made earlier in the list. */
  ghost predicate InOrder(ops: seq<Op>) {
    forall i, j :: ReadsFrom(ops, i, j) && i != j ==> j < i
  }

  /** A list that is in order, complete and makes nothing twice is returned unchanged. */
  lemma InOrderStays(g: Graph)
    requires SingleMaker(g.ops) && !HasOrphan(g) && InOrder(g.ops)
    ensures Sorted(g) == Ok(g)
  {
    var deps := DepsOf(g.ops);
    var rank := (x: int) => x;
    forall a, b | Edge(AsDeps(deps), a, b)
      ensures rank(b) < rank(a)
    {
      assert ReadsFrom(g.ops, a, b);
    }
    RankedIsAcyclic(AsDeps(deps), rank);
    SortedStays(deps, OrderOf(deps));
    assert Pick(g.ops, OrderOf(deps)) == g.ops;
  }

  lemma OrderIsTopological(g: Graph)
    requires Sorted(g).Ok?
    ensures IsTopological(DepsOf(g.ops), OrderOf(DepsOf(g.ops)))
    ensures Sorted(g).value == g.(ops := Pick(g.ops, OrderOf(DepsOf(g.ops))))
    ensures forall i :: 0 <= i < |g.ops| ==> i in OrderOf(DepsOf(g.ops))
  {
    var deps := DepsOf(g.ops);
    CompleteIffAcyclic(deps, OrderOf(deps));
    DistinctCount(OrderOf(deps), |deps|);
  }

  /** A successful sort only permutes the ops, and afterwards every read comes after its maker. */
  lemma SortedIsInOrder(g: Graph)
    requires Sorted(g).Ok?
    ensures var s := Sorted(g).value;
      && InOrder(s.ops) && SingleMaker(s.ops) && !HasOrphan(s)
      && multiset(s.ops) == multiset(g.ops) && s == g.(ops := s.ops)
  {
    var s := Sorted(g).value;
    var order := OrderOf(DepsOf(g.ops));
    OrderIsTopological(g);
    forall i: nat, j: nat | ReadsFrom(s.ops, i, j) && i != j
      ensures j < i
    {
      assert ReadsFrom(g.ops, order[i], order[j]);
      assert order[i] != order[j];
      assert Ready(DepsOf(g.ops), order[..i], order[i]);
      assert order[j] in order[..i];
    }
    forall j: nat, k: nat, t | Maker(s.ops, j, t) && Maker(s.ops, k, t)
      ensures j == k
    {
      assert Maker(g.ops, order[j], t) && Maker(g.ops, order[k], t);
    }
    if HasOrphan(s) {
      var i: nat, t :| IsOrphan(s, i, t);
      forall j: nat
        ensures !Maker(g.ops, j, t)
      {
        if j < |g.ops| {
          assert j in order;
          var k :| 0 <= k < |order| && order[k] == j;
          assert !Maker(s.ops, k, t);
        }
      }
      assert IsOrphan(g, order[i], t);
    }
    PermutedMultiset(g.ops, order);
  }

  lemma DropGreatest(order: seq<nat>, n: nat) returns (k: nat)
    requires IsPermutation(order, n + 1)
    ensures k < |order| && order[k] == n
    ensures IsPermutation(order[..k] + order[k + 1..], n)
  {
    DistinctCount(order, n + 1);
    assert n in order;
    k := IndexOf(order, n);
    var rest := order[..k] + order[k + 1..];
    forall m | 0 <= m < |rest|
      ensures rest[m] == order[if m < k then m else m + 1]
    {
    }
  }

  lemma MultisetAround<T>(p: seq<T>, k: nat)
    requires k < |p|
    ensures multiset(p) == multiset(p[..k] + p[k + 1..]) + multiset{p[k]}
  {
    assert p == p[..k] + [p[k]] + p[k + 1..];
  }

  lemma {:induction false} PermutedMultiset<T>(ops: seq<T>, order: seq<nat>)
    requires IsPermutation(order, |ops|)
    ensures multiset(Pick(ops, order)) == multiset(ops)
    decreases |ops|
  {
    if |ops| > 0 {
      var n := |ops| - 1;
      var k := DropGreatest(order, n);
      var rest := order[..k] + order[k + 1..];
      PermutedMultiset(ops[..n], rest);
      var p, q := Pick(ops, order), Pick(ops[..n], rest);
      assert q == p[..k] + p[k + 1..];
      assert p[k] == ops[n];
      hide Pick, IsPermutation;
      MultisetAround(p, k);
      assert ops == ops[..n] + [ops[n]];
    } else {
      assert Pick(ops, order) == ops;
    }
  }

  /** Sorting a sorted graph changes nothing. */
  lemma SortIsIdempotent(g: Graph)
    requires Sorted(g).Ok?
    ensures Sorted(Sorted(g).value) == Sorted(g)
  {
    SortedIsInOrder(g);
    InOrderStays(Sorted(g).value);
  }
}
