/** Unfusing undoes fusing (pipeline/apply_fusion_hint.py and pipeline/apply_unfuse_hint.py). */
module UnfuseRoundTrip {
  import opened Ir
  import opened Seqs
  import opened Fusion
  import FR = FusionRewrite
  import opened Renumbering
  import U = Unfuse

  /** View-free, with ids in list order. */
  ghost predicate Numbered(ops: seq<Op>) {
    forall i :: 0 <= i < |ops| ==> ops[i].id == Some(i)
  }

  /** Dependencies as the exporter derives them: the producers of the inputs, sorted. */
  ghost predicate Linked(ops: seq<Op>) {
    forall i :: 0 <= i < |ops| ==> U.Relinked(ops[i], U.Producers(ops)) == ops[i]
  }

  ghost function Neighbours(network: string, ops: seq<Op>, a: nat, n: nat, outputs: set<Name>): FR.Job {
    FR.Job(network, ops, [IdRange(a, n)], outputs)
  }

  lemma {:induction false} NumberedById(ops: seq<Op>)
    requires Numbered(ops)
    ensures forall x :: x in ById(ops) <==> 0 <= x < |ops|
    ensures forall x :: x in ById(ops) ==> ById(ops)[x] == ops[x]
  {
    if ops != [] {
      NumberedById(ops[..|ops| - 1]);
    }
  }

  lemma InRange(a: nat, n: nat, x: int)
    ensures x in IdRange(a, n) <==> a <= x < a + n
  {
    if a <= x < a + n {
      assert IdRange(a, n)[x - a] == x;
    }
  }

  lemma RangeFacts(a: nat, n: nat)
    requires n > 0
    ensures FR.MinOf(IdRange(a, n)) == a
    ensures forall x :: FR.GroupFor([IdRange(a, n)], x) == if a <= x < a + n then Some(IdRange(a, n)) else None
  {
    var g := IdRange(a, n);
    InRange(a, n, a);
    InRange(a, n, FR.MinOf(g));
    forall x
      ensures FR.GroupFor([g], x) == if a <= x < a + n then Some(g) else None
    {
      InRange(a, n, x);
    }
  }

  ghost function TheFused(job: FR.Job, a: nat, n: nat): Op
    requires n > 0 && a + n <= |job.ops|
  {
    FR.FusedOp(job, IdRange(a, n), job.ops[a..a + n])
  }

  lemma MembersAre(byId: map<int, Op>, g: seq<int>, slice: seq<Op>)
    requires |g| == |slice| && forall i :: 0 <= i < |g| ==> g[i] in byId && byId[g[i]] == slice[i]
    ensures Known(g, byId) && FR.Members(byId, g) == slice
  {
  }

  lemma MembersAreSlice(ops: seq<Op>, a: nat, n: nat)
    requires Numbered(ops) && a + n <= |ops|
    ensures Known(IdRange(a, n), ById(ops))
    ensures FR.Members(ById(ops), IdRange(a, n)) == ops[a..a + n]
  {
    var g, byId := IdRange(a, n), ById(ops);
    NumberedById(ops);
    hide *;
    forall i | 0 <= i < n
      ensures g[i] in byId && byId[g[i]] == ops[a..a + n][i]
    {
    }
    MembersAre(byId, g, ops[a..a + n]);
  }

  lemma TheFusedIs(job: FR.Job, a: nat, n: nat)
    requires Numbered(job.ops) && n > 0 && a + n <= |job.ops|
    ensures Known(IdRange(a, n), ById(job.ops))
    ensures FR.FusedOp(job, IdRange(a, n), FR.Members(ById(job.ops), IdRange(a, n))) == TheFused(job, a, n)
  {
    MembersAreSlice(job.ops, a, n);
    hide FR.FusedOp, FR.Members;
  }

  // ---------------------------------------------------------------- what fusing neighbours gives

  ghost function FusedEntry(ops: seq<Op>, a: nat, n: nat, f: Op, i: nat): Op
    requires n > 0 && i + n <= |ops|
  {
    if i < a then ops[i] else if i == a then f.(id := Some(a)) else ops[i + n - 1].(id := Some(i))
  }

  ghost predicate FusedSoFar(ops: seq<Op>, a: nat, n: nat, f: Op, k: nat, s: FR.Pass)
    requires n > 0 && a + n <= |ops| && k <= |ops|
  {
    && |s.ops| == (if k <= a then k else if k <= a + n then a + 1 else k - n + 1)
    && s.next == |s.ops|
    && forall i :: 0 <= i < |s.ops| ==> s.ops[i] == FusedEntry(ops, a, n, f, i)
  }

  lemma NeighboursGrouped(job: FR.Job, a: nat, n: nat)
    requires Numbered(job.ops) && n > 0 && a + n <= |job.ops| && job.groups == [IdRange(a, n)]
    ensures FR.WellGrouped(job)
  {
    MembersAreSlice(job.ops, a, n);
  }

  lemma AloneEmits(job: FR.Job, s: FR.Pass, o: Op)
    requires FR.WellGrouped(job) && o.id.Some? && FR.GroupFor(job.groups, o.id.value).None?
    ensures FR.Emit(job, s, o).ops == s.ops + [o.(id := Some(s.next))] && FR.Emit(job, s, o).next == s.next + 1
  {
  }

  lemma OneMore(ops: seq<Op>, a: nat, n: nat, f: Op, k: nat, s: FR.Pass, t: FR.Pass)
    requires Numbered(ops) && n > 0 && a + n <= |ops| && k < |ops| && FusedSoFar(ops, a, n, f, k, s)
    requires k < a || k >= a + n ==> t.ops == s.ops + [ops[k].(id := Some(s.next))] && t.next == s.next + 1
    requires k == a ==> t.ops == s.ops + [f.(id := Some(s.next))] && t.next == s.next + 1
    requires a < k < a + n ==> t == s
    ensures FusedSoFar(ops, a, n, f, k + 1, t)
  {
    assert ops[k].id == Some(k);
    if k < a { assert ops[k].(id := Some(k)) == ops[k]; }
  }

  lemma NeighbourStep(job: FR.Job, a: nat, n: nat, k: nat, s: FR.Pass)
    requires Numbered(job.ops) && n > 0 && a + n <= |job.ops| && k < |job.ops|
    requires job.groups == [IdRange(a, n)] && FR.WellGrouped(job)
    requires FusedSoFar(job.ops, a, n, TheFused(job, a, n), k, s)
    ensures FusedSoFar(job.ops, a, n, TheFused(job, a, n), k + 1, FR.Emit(job, s, job.ops[k]))
  {
    var o, f := job.ops[k], TheFused(job, a, n);
    assert o.id == Some(k);
    EmitCases(job, a, n, s, o);
    hide TheFused, FR.Emit, FR.WellGrouped, FusedSoFar, Numbered, IdRange;
    OneMore(job.ops, a, n, f, k, s, FR.Emit(job, s, o));
  }

  lemma EmitCases(job: FR.Job, a: nat, n: nat, s: FR.Pass, o: Op)
    requires Numbered(job.ops) && n > 0 && a + n <= |job.ops| && o.id.Some?
    requires job.groups == [IdRange(a, n)] && FR.WellGrouped(job)
    ensures var k, t := o.id.value, FR.Emit(job, s, o);
      && (k < a || k >= a + n ==> t.ops == s.ops + [o.(id := Some(s.next))] && t.next == s.next + 1)
      && (k == a ==> t.ops == s.ops + [TheFused(job, a, n).(id := Some(s.next))] && t.next == s.next + 1)
      && (a < k < a + n ==> t == s)
  {
    hide *;
    var k := o.id.value;
    RangeFacts(a, n);
    if k < a || k >= a + n {
      AloneEmits(job, s, o);
    } else if k == a {
      TheFusedIs(job, a, n);
      HeadEmits(job, s, o, IdRange(a, n));
    } else {
      AbsorbedEmits(job, s, o);
    }
  }

  lemma {:induction false} FuseNeighbours(job: FR.Job, a: nat, n: nat, k: nat)
    requires Numbered(job.ops) && n > 0 && a + n <= |job.ops| && k <= |job.ops|
    requires job.groups == [IdRange(a, n)] && FR.WellGrouped(job)
    ensures FusedSoFar(job.ops, a, n, TheFused(job, a, n), k, FR.FirstPass(job, k))
  {
    hide *;
    if k == 0 {
      NothingFused(job, a, n);
    } else {
      FuseNeighbours(job, a, n, k - 1);
      FirstStep(job, k);
      NeighbourStep(job, a, n, k - 1, FR.FirstPass(job, k - 1));
    }
  }

  lemma NothingFused(job: FR.Job, a: nat, n: nat)
    requires n > 0 && a + n <= |job.ops| && FR.WellGrouped(job)
    ensures FusedSoFar(job.ops, a, n, TheFused(job, a, n), 0, FR.FirstPass(job, 0))
  {
    hide TheFused;
  }

  lemma FusedResult(job: FR.Job, a: nat, n: nat)
    requires Numbered(job.ops) && n > 0 && a + n <= |job.ops| && job.groups == [IdRange(a, n)]
    requires FR.WellGrouped(job) && FR.Rewrite(job).Ok?
    ensures var w := FR.Rewrite(job).value.ops;
      && |w| == |job.ops| - n + 1
      && forall i :: 0 <= i < |w| ==> w[i] == FusedEntry(job.ops, a, n, TheFused(job, a, n), i).(deps := w[i].deps)
  {
    FuseNeighbours(job, a, n, |job.ops|);
    RewriteIsSecondPass(job);
    hide FR.FusedOp, ById, FR.GroupFor, FR.MinOf, FR.Members, FR.ExternalDeps, IdRange, FR.FirstPass, FR.Rewrite, FR.Rewire;
    var s, w := Finished(job), FR.Rewrite(job).value.ops;
    forall i | 0 <= i < |w|
      ensures w[i] == s.ops[i].(deps := w[i].deps)
    {
      RewireKeeps(s, s.ops[i], w[i]);
    }
  }

  lemma RewireKeeps(s: FR.Pass, o: Op, n: Op)
    requires FR.Rewire(s, o) == Ok(n)
    ensures n == o.(deps := n.deps)
  {
  }

  // ---------------------------------------------------------------- what unfusing that gives

  ghost function BackEntry(w: seq<Op>, a: nat, n: nat, i: nat): Op
    requires a < |w| && n == |w[a].subOps| && n > 0 && i < |w| + n - 1
  {
    if i < a then w[i] else if i < a + n then U.RestoredOp(w[a], a, i - a, i) else w[i - n + 1].(id := Some(i))
  }

  ghost predicate BackSoFar(w: seq<Op>, a: nat, n: nat, k: nat, s: U.Pass)
    requires a < |w| && n == |w[a].subOps| && n > 0 && k <= |w|
  {
    && |s.ops| == (if k <= a then k else k + n - 1)
    && s.next == |s.ops|
    && forall i :: 0 <= i < |s.ops| ==> s.ops[i] == BackEntry(w, a, n, i)
  }

  /** Every inner tensor of the op is registered already, as fusing leaves it. */
  ghost predicate Registered(o: Op, tensors: U.Tensors) {
    forall j :: 0 <= j < |o.subOps| && U.FirstOutput(o.subOps[j]).Some? ==> U.FirstOutput(o.subOps[j]).value in tensors
  }

  lemma {:induction false} PiecesKeepTensors(s: U.Pass, o: Op, did: int, fusedShape: seq<int>, j: nat)
    requires j <= |o.subOps| && U.Pieces(s, o, did, fusedShape, j).Ok? && Registered(o, s.tensors)
    ensures U.Pieces(s, o, did, fusedShape, j).value.tensors == s.tensors
  {
    hide U.RestoredOp, U.InternalTensor;
    if j > 0 {
      PiecesKeepTensors(s, o, did, fusedShape, j - 1);
    }
  }

  lemma BackStep(w: seq<Op>, tensors: U.Tensors, a: nat, n: nat, k: nat, s: U.Pass)
    requires a < |w| && n == |w[a].subOps| && n > 0 && k < |w| && Numbered(w) && Registered(w[a], tensors)
    requires BackSoFar(w, a, n, k, s) && s.tensors == tensors && U.Step(s, w[k], {a}).Ok?
    ensures BackSoFar(w, a, n, k + 1, U.Step(s, w[k], {a}).value) && U.Step(s, w[k], {a}).value.tensors == tensors
  {
    hide U.RestoredOp, U.Pieces, Registered, U.ShapeOf, U.FirstOutput;
    var o, t := w[k], U.Step(s, w[k], {a}).value;
    assert o.id == Some(k);
    if k == a {
      var shape := U.ShapeOf(s.tensors, U.FirstOutput(o));
      PiecesKeepTensors(s, o, a, shape, n);
      var restored := U.PiecesRestore(s, o, a, shape, n);
      assert t.ops == s.ops + restored;
      forall i | 0 <= i < |t.ops|
        ensures t.ops[i] == BackEntry(w, a, n, i)
      {
        if i >= a { assert t.ops[i] == restored[i - a]; }
      }
    }
  }

  lemma {:induction false} BackSteps(w: seq<Op>, tensors: U.Tensors, a: nat, n: nat, k: nat)
    requires a < |w| && n == |w[a].subOps| && n > 0 && k <= |w| && Numbered(w) && Registered(w[a], tensors)
    requires U.Steps(w, tensors, {a}, k).Ok?
    ensures BackSoFar(w, a, n, k, U.Steps(w, tensors, {a}, k).value) && U.Steps(w, tensors, {a}, k).value.tensors == tensors
  {
    if k > 0 {
      BackSteps(w, tensors, a, n, k - 1);
      hide U.Step, Registered, Numbered;
      BackStep(w, tensors, a, n, k - 1, U.Steps(w, tensors, {a}, k - 1).value);
    }
  }

  lemma {:induction false} SameProducers(a: seq<Op>, b: seq<Op>)
    requires |a| == |b| && forall i :: 0 <= i < |a| ==> a[i].id == b[i].id && a[i].outputs == b[i].outputs
    ensures U.Producers(a) == U.Producers(b)
  {
    if a != [] {
      var n := |a| - 1;
      SameProducers(a[..n], b[..n]);
      if a[n].id.Some? {
        SameWritten(U.Producers(a[..n]), a[n], b[n], |a[n].outputs|);
      }
    }
  }

  lemma {:induction false} SameWritten(p: map<Name, int>, a: Op, b: Op, n: nat)
    requires a.id == b.id && a.id.Some? && a.outputs == b.outputs && n <= |a.outputs|
    ensures U.WrittenBy(p, a, n) == U.WrittenBy(p, b, n)
  {
    if n > 0 {
      SameWritten(p, a, b, n - 1);
    }
  }

  // ---------------------------------------------------------------- the round trip

  /** The op is back: everything as before, except that a target left open is now the default one
      and members of the group carry the tag of where they were. */
  ghost predicate CameBack(before: Op, after: Op, inGroup: bool) {
    if inGroup then
      && after == before.(target := after.target, origin := after.origin)
      && TargetOf(after) == TargetOf(before) && after.origin.Piece?
    else after == before
  }

  ghost predicate FusedFrom(job: FR.Job, a: nat, n: nat, w: seq<Op>)
    requires n > 0 && a + n <= |job.ops|
  {
    && |w| == |job.ops| - n + 1
    && forall j :: 0 <= j < |w| ==> w[j] == FusedEntry(job.ops, a, n, TheFused(job, a, n), j).(deps := w[j].deps)
  }

  ghost predicate EntryMatches(o: Op, e: Op, inGroup: bool) {
    && e == o.(deps := e.deps, target := e.target, origin := e.origin)
    && if inGroup then TargetOf(e) == TargetOf(o) && e.origin.Piece? else e.target == o.target && e.origin == o.origin
  }

  lemma EntryOutside(ops: seq<Op>, f: Op, w: seq<Op>, a: nat, n: nat, i: nat)
    requires n > 0 && a + n <= |ops| && |w| == |ops| - n + 1 && n == |w[a].subOps| && i < |ops| && (i < a || i >= a + n)
    requires ops[i].id == Some(i)
    requires var j := if i < a then i else i - n + 1; w[j] == FusedEntry(ops, a, n, f, j).(deps := w[j].deps)
    ensures EntryMatches(ops[i], BackEntry(w, a, n, i), false)
  {
    hide U.RestoredOp;
    var j := if i < a then i else i - n + 1;
    assert w[j] == ops[i].(id := Some(j), deps := w[j].deps);
    assert BackEntry(w, a, n, i) == w[j].(id := Some(i));
  }

  lemma FusedFromAt(job: FR.Job, a: nat, n: nat, w: seq<Op>, j: nat)
    requires n > 0 && a + n <= |job.ops| && FusedFrom(job, a, n, w) && j < |w|
    ensures w[j] == FusedEntry(job.ops, a, n, TheFused(job, a, n), j).(deps := w[j].deps) && |w| == |job.ops| - n + 1
    ensures j == a ==> w[a] == TheFused(job, a, n).(id := Some(a), deps := w[a].deps)
  {
    hide TheFused;
  }

  lemma BackInside(w: seq<Op>, a: nat, n: nat, i: nat)
    requires a < |w| && n == |w[a].subOps| && n > 0 && a <= i < a + n
    ensures BackEntry(w, a, n, i) == U.RestoredOp(w[a], a, i - a, i)
  {
  }

  lemma EntryIsOp(job: FR.Job, w: seq<Op>, a: nat, n: nat, i: nat)
    requires Numbered(job.ops) && n > 0 && a + n <= |job.ops| && FusedFrom(job, a, n, w) && i < |job.ops| && n == |w[a].subOps|
    ensures EntryMatches(job.ops[i], BackEntry(w, a, n, i), a <= i < a + n)
  {
    assert job.ops[i].id == Some(i);
    assert |w| == |job.ops| - n + 1;
    hide *;
    if a <= i < a + n {
      FusedFromAt(job, a, n, w, a);
      RestoredMatches(job, w[a], a, n, i);
      BackInside(w, a, n, i);
    } else {
      FusedFromAt(job, a, n, w, if i < a then i else i - n + 1);
      EntryOutside(job.ops, TheFused(job, a, n), w, a, n, i);
    }
  }

  lemma RestoredMatches(job: FR.Job, f: Op, a: nat, n: nat, i: nat)
    requires Numbered(job.ops) && n > 0 && a + n <= |job.ops| && a <= i < a + n && n == |f.subOps|
    requires f == TheFused(job, a, n).(id := f.id, deps := f.deps)
    ensures EntryMatches(job.ops[i], U.RestoredOp(f, a, i - a, i), true)
  {
    FusedTargets(job, a, n, i);
    RestoredIs(job.ops[i], f, a, i - a, i);
  }

  lemma RestoredIs(o: Op, f: Op, did: int, j: nat, newId: int)
    requires j < |f.subOps| && f.subOps[j] == o && o.id == Some(newId) && (o.target.None? ==> f.target == Some("any"))
    ensures EntryMatches(o, U.RestoredOp(f, did, j, newId), true)
  {
  }

  lemma EntryCameBack(job: FR.Job, w: seq<Op>, a: nat, n: nat, i: nat, back: Op)
    requires Numbered(job.ops) && n > 0 && a + n <= |job.ops| && FusedFrom(job, a, n, w) && i < |job.ops| && n == |w[a].subOps|
    requires U.Relinked(job.ops[i], U.Producers(job.ops)) == job.ops[i]
    requires back == U.Relinked(BackEntry(w, a, n, i), U.Producers(job.ops))
    ensures CameBack(job.ops[i], back, a <= i < a + n)
  {
    EntryIsOp(job, w, a, n, i);
    hide U.Producers, U.Sorted, BackEntry, FusedFrom;
    var o, e := job.ops[i], BackEntry(w, a, n, i);
    assert o.id == Some(i);
    assert U.DepSet(e, U.Producers(job.ops)) == U.DepSet(o, U.Producers(job.ops));
  }

  lemma FusedTargets(job: FR.Job, a: nat, n: nat, i: nat)
    requires n > 0 && a + n <= |job.ops| && a <= i < a + n
    ensures TheFused(job, a, n).subOps == job.ops[a..a + n]
    ensures job.ops[i].target.None? ==> TheFused(job, a, n).target == Some("any")
  {
    var subs := job.ops[a..a + n];
    assert subs[i - a] == job.ops[i] && subs[i - a] in subs;
  }

  lemma BackIds(job: FR.Job, w: seq<Op>, a: nat, n: nat, s: U.Pass)
    requires Numbered(job.ops) && n > 0 && a + n <= |job.ops| && FusedFrom(job, a, n, w)
    requires n == |w[a].subOps| && BackSoFar(w, a, n, |w|, s)
    ensures |s.ops| == |job.ops| && U.Producers(s.ops) == U.Producers(job.ops)
  {
    hide U.Producers, BackEntry;
    forall i | 0 <= i < |job.ops|
      ensures s.ops[i].id == job.ops[i].id && s.ops[i].outputs == job.ops[i].outputs
    {
      assert s.ops[i] == BackEntry(w, a, n, i);
      EntryIsOp(job, w, a, n, i);
    }
    SameProducers(s.ops, job.ops);
  }

  lemma FusedIsNumbered(job: FR.Job, a: nat, n: nat, w: seq<Op>)
    requires Numbered(job.ops) && n > 0 && a + n <= |job.ops| && FusedFrom(job, a, n, w)
    ensures Numbered(w) && w[a].subOps == job.ops[a..a + n] && |w[a].subOps| == n
  {
    FusedTargets(job, a, n, a);
  }

  lemma AllBack(job: FR.Job, tensors: U.Tensors, a: nat, n: nat, w: seq<Op>)
    requires Numbered(job.ops) && Linked(job.ops) && n > 0 && a + n <= |job.ops| && FusedFrom(job, a, n, w)
    requires forall o, t :: o in job.ops && t in o.outputs ==> t in tensors
    requires U.Steps(w, tensors, {a}, |w|).Ok?
    ensures var s := U.Steps(w, tensors, {a}, |w|).value; var ops := U.RelinkAll(s.ops);
      && |ops| == |job.ops| && s.tensors == tensors
      && forall i :: 0 <= i < |ops| ==> CameBack(job.ops[i], ops[i], a <= i < a + n)
  {
    FusedIsNumbered(job, a, n, w);
    SliceRegistered(job.ops, tensors, a, n, w[a]);
    LinkedAt(job.ops);
    hide *;
    var s := U.Steps(w, tensors, {a}, |w|).value;
    BackSteps(w, tensors, a, n, |w|);
    BackIds(job, w, a, n, s);
    forall i | 0 <= i < |job.ops|
      ensures CameBack(job.ops[i], U.RelinkAll(s.ops)[i], a <= i < a + n)
    {
      EntryAt(w, a, n, s, i);
      EntryCameBack(job, w, a, n, i, U.RelinkAll(s.ops)[i]);
    }
  }

  lemma LinkedAt(ops: seq<Op>)
    requires Linked(ops)
    ensures forall i :: 0 <= i < |ops| ==> U.Relinked(ops[i], U.Producers(ops)) == ops[i]
  {
    hide U.Relinked;
  }

  lemma SliceRegistered(ops: seq<Op>, tensors: U.Tensors, a: nat, n: nat, f: Op)
    requires a + n <= |ops| && f.subOps == ops[a..a + n]
    requires forall o, t :: o in ops && t in o.outputs ==> t in tensors
    ensures Registered(f, tensors)
  {
    forall j | 0 <= j < n
      ensures f.subOps[j] in ops
    {
      assert f.subOps[j] == ops[a + j];
    }
  }

  lemma EntryAt(w: seq<Op>, a: nat, n: nat, s: U.Pass, i: nat)
    requires a < |w| && n == |w[a].subOps| && n > 0 && BackSoFar(w, a, n, |w|, s) && i < |s.ops|
    ensures s.ops[i] == BackEntry(w, a, n, i)
    ensures U.RelinkAll(s.ops)[i] == U.Relinked(s.ops[i], U.Producers(s.ops))
  {
    hide U.Relinked;
  }

  lemma FusingGives(job: FR.Job, a: nat, n: nat, fused: FR.Rewritten)
    requires n > 0 && a + n <= |job.ops| && Numbered(job.ops) && job.groups == [IdRange(a, n)]
    requires FR.Outcome(job, false, Ok(fused))
    ensures FusedFrom(job, a, n, fused.ops)
  {
    hide *;
    NeighboursGrouped(job, a, n);
    OutcomeRewrites(job, fused);
    FusedResult(job, a, n);
    FusedFromIs(job, a, n, fused.ops);
  }

  lemma FusedFromIs(job: FR.Job, a: nat, n: nat, w: seq<Op>)
    requires n > 0 && a + n <= |job.ops| && |w| == |job.ops| - n + 1
    requires forall i :: 0 <= i < |w| ==> w[i] == FusedEntry(job.ops, a, n, TheFused(job, a, n), i).(deps := w[i].deps)
    ensures FusedFrom(job, a, n, w)
  {
    hide TheFused, FusedEntry;
  }

  lemma OutcomeRewrites(job: FR.Job, fused: FR.Rewritten)
    requires job.groups != [] && FR.WellGrouped(job) && FR.Outcome(job, false, Ok(fused))
    ensures FR.Rewrite(job) == Ok(fused)
  {
    FR.NothingExpanded(job.groups, ById(job.ops));
    hide FR.Rewrite, FR.Expanded, Valid, ById, FR.WellGrouped, FR.NoOverlap;
    assert job.(groups := job.groups) == job;
  }

  /** Fusing neighbours and unfusing the result, when both are accepted, gives back every op with
      its name, kind, tensors, id and dependencies, and the same registered tensors. */
  lemma UnfuseUndoesFuse(network: string, ops: seq<Op>, tensors: U.Tensors, outputs: set<Name>, a: nat, n: nat,
                         fused: FR.Rewritten, back: U.Unfused)
    requires Numbered(ops) && Linked(ops) && n > 0 && a + n <= |ops|
    requires forall o, t :: o in ops && t in o.outputs ==> t in tensors
    requires FR.Outcome(Neighbours(network, ops, a, n, outputs), false, Ok(fused))
    requires U.Outcome(fused.ops, tensors, [a], Ok(back))
    ensures |back.ops| == |ops| && back.tensors == tensors
    ensures forall i :: 0 <= i < |ops| ==> CameBack(ops[i], back.ops[i], a <= i < a + n)
  {
    var job := Neighbours(network, ops, a, n, outputs);
    FusingGives(job, a, n, fused);
    assert AsSet([a]) == {a};
    hide FR.Outcome, U.Steps, U.RelinkAll, CameBack, FusedFrom, U.HintOk, Linked, Numbered;
    AllBack(job, tensors, a, n, fused.ops);
  }
}
