/** What a fused graph keeps of the original (pipeline/apply_fusion_hint.py): the renumbering is
    total, onto and joins nothing but the groups, and the dependencies of the result are those of
    the original graph with each group contracted. */
module Renumbering {
  import opened Ir
  import opened Digraph
  import opened Contraction
  import opened Fusion
  import opened FusionRewrite

  ghost predicate UniqueIds(ops: seq<Op>) {
    forall i, j :: 0 <= i < j < |ops| && ops[i].id.Some? ==> ops[i].id != ops[j].id
  }

  /** Groups of known ids, without overlap, over ops with distinct ids. */
  ghost predicate Ready(job: Job) {
    WellGrouped(job) && NoOverlap(job.groups) && UniqueIds(job.ops)
  }

  ghost predicate NonEmptyGroups(groups: seq<seq<int>>) {
    forall g :: g in groups ==> g != []
  }

  ghost function HeadOf(groups: seq<seq<int>>, x: int): int
    requires NonEmptyGroups(groups)
  {
    match GroupFor(groups, x)
    case None => x
    case Some(g) => MinOf(g)
  }

  ghost predicate Seen(ops: seq<Op>, k: nat, x: int)
    requires k <= |ops|
  {
    exists i :: 0 <= i < k && ops[i].id == Some(x)
  }

  // ---------------------------------------------------------------- ids and groups

  lemma {:induction false} ByIdHas(ops: seq<Op>, x: int)
    ensures x in ById(ops) <==> Seen(ops, |ops|, x)
    ensures x in ById(ops) ==> exists i :: 0 <= i < |ops| && ops[i].id == Some(x) && ById(ops)[x] == ops[i]
  {
    if ops != [] {
      var n := |ops| - 1;
      ByIdHas(ops[..n], x);
      assert forall i {:trigger ops[i]} :: 0 <= i < n ==> ops[..n][i] == ops[i];
      if ops[n].id == Some(x) {
        assert Seen(ops, |ops|, x);
      } else if x in ById(ops[..n]) {
        var i :| 0 <= i < n && ops[..n][i].id == Some(x) && ById(ops[..n])[x] == ops[..n][i];
        assert ops[i] == ops[..n][i];
        assert Seen(ops, |ops|, x);
      }
    }
  }

  lemma ByIdAt(ops: seq<Op>, i: nat)
    requires UniqueIds(ops) && i < |ops| && ops[i].id.Some?
    ensures ops[i].id.value in ById(ops) && ById(ops)[ops[i].id.value] == ops[i]
  {
    ByIdHas(ops, ops[i].id.value);
  }

  lemma ByIdAppend(ops: seq<Op>, o: Op)
    ensures ById(ops + [o]) == if o.id.Some? then ById(ops)[o.id.value := o] else ById(ops)
  {
    assert (ops + [o])[..|ops|] == ops;
  }

  lemma GroupIsUnique(groups: seq<seq<int>>, g: seq<int>, h: seq<int>, x: int)
    requires NoOverlap(groups) && g in groups && h in groups && x in g && x in h
    ensures g == h
  {
    var i :| 0 <= i < |groups| && groups[i] == g;
    var j :| 0 <= j < |groups| && groups[j] == h;
    assert x in AsSet(groups[i]) && x in AsSet(groups[j]);
  }

  /** A group's members, and nothing else, are represented by its least member. */
  lemma HeadMeans(groups: seq<seq<int>>, x: int)
    requires NonEmptyGroups(groups) && NoOverlap(groups)
    ensures forall g :: g in groups ==> (x in g <==> HeadOf(groups, x) == MinOf(g))
    ensures forall g :: g in groups && x in g ==> GroupFor(groups, x) == Some(g)
    ensures (forall g :: g in groups ==> x !in g) ==> HeadOf(groups, x) == x
    ensures HeadOf(groups, HeadOf(groups, x)) == HeadOf(groups, x)
  {
    forall g | g in groups && x in g
      ensures GroupFor(groups, x) == Some(g)
    {
      GroupIsUnique(groups, g, GroupFor(groups, x).value, x);
    }
    forall g | g in groups && HeadOf(groups, x) == MinOf(g)
      ensures x in g
    {
      if GroupFor(groups, x).Some? {
        GroupIsUnique(groups, g, GroupFor(groups, x).value, MinOf(g));
      }
    }
    var h := HeadOf(groups, x);
    if GroupFor(groups, x).Some? {
      GroupIsUnique(groups, GroupFor(groups, x).value, GroupFor(groups, h).value, h);
    }
  }

  // ---------------------------------------------------------------- the invariant of the first pass

  ghost predicate KeysRight(job: Job, k: nat, remap: map<int, int>)
    requires NonEmptyGroups(job.groups) && k <= |job.ops|
  {
    forall x :: x in remap <==> x in ById(job.ops) && Seen(job.ops, k, HeadOf(job.groups, x))
  }

  ghost predicate FibresRight(groups: seq<seq<int>>, remap: map<int, int>)
    requires NonEmptyGroups(groups)
  {
    forall x, y :: x in remap && y in remap ==> (remap[x] == remap[y] <==> HeadOf(groups, x) == HeadOf(groups, y))
  }

  ghost predicate Onto(remap: map<int, int>, next: int) {
    && next >= 0
    && (forall x :: x in remap ==> 0 <= remap[x] < next)
    && (forall v :: 0 <= v < next ==> Hit(remap, v))
  }

  ghost predicate Hit(remap: map<int, int>, v: int) {
    exists x :: x in remap && remap[x] == v
  }

  ghost function EmittedFor(job: Job, x: int, v: int): Op
    requires WellGrouped(job) && x in ById(job.ops)
  {
    match GroupFor(job.groups, x)
    case None => ById(job.ops)[x].(id := Some(v))
    case Some(g) => FusedOp(job, g, Members(ById(job.ops), g)).(id := Some(v))
  }

  function IdsOf(ops: seq<Op>): seq<int> {
    if ops == [] then []
    else IdsOf(ops[..|ops| - 1]) + if ops[|ops| - 1].id.Some? then [ops[|ops| - 1].id.value] else []
  }

  ghost predicate OpsRight(job: Job, s: Pass)
    requires WellGrouped(job)
  {
    && |IdsOf(s.ops)| == s.next && (forall v :: 0 <= v < s.next ==> IdsOf(s.ops)[v] == v)
    && (forall v :: v in ById(s.ops) <==> 0 <= v < s.next)
    && (forall x :: x in s.remap ==> x in ById(job.ops) && s.remap[x] in ById(s.ops) && ById(s.ops)[s.remap[x]] == EmittedFor(job, x, s.remap[x]))
  }

  ghost predicate StashRight(job: Job, s: Pass)
    requires WellGrouped(job)
  {
    && (forall v :: v in s.stashed ==> v < s.next)
    && (forall x :: x in s.remap ==>
         match GroupFor(job.groups, x)
         case None => s.remap[x] !in s.stashed
         case Some(g) => s.remap[x] in s.stashed && s.stashed[s.remap[x]] == ExternalDeps(g, Members(ById(job.ops), g)))
  }

  ghost predicate Inv(job: Job, k: nat, s: Pass)
    requires WellGrouped(job) && k <= |job.ops|
  {
    && KeysRight(job, k, s.remap) && FibresRight(job.groups, s.remap) && Onto(s.remap, s.next)
    && OpsRight(job, s) && StashRight(job, s)
  }

  /** The keys that the op at `k` adds to the remap. */
  ghost predicate AddsAt(job: Job, k: nat, fresh_: set<int>)
    requires WellGrouped(job) && k < |job.ops|
  {
    forall x :: x in fresh_ <==> x in ById(job.ops) && job.ops[k].id == Some(HeadOf(job.groups, x))
  }

  lemma KeysStep(job: Job, k: nat, remap: map<int, int>, added: map<int, int>, next: int)
    requires Ready(job) && k < |job.ops|
    requires KeysRight(job, k, remap) && FibresRight(job.groups, remap) && Onto(remap, next)
    requires AddsAt(job, k, added.Keys) && forall x :: x in added ==> added[x] == next
    requires exists x :: x in added
    ensures var r := remap + added; KeysRight(job, k + 1, r) && FibresRight(job.groups, r) && Onto(r, next + 1)
    ensures forall x :: x in added ==> x !in remap
  {
    var r := remap + added;
    hide HeadOf, ById;
    forall x
      ensures Seen(job.ops, k + 1, x) <==> Seen(job.ops, k, x) || job.ops[k].id == Some(x)
    {
    }
    assert forall i :: 0 <= i < k && job.ops[k].id.Some? ==> job.ops[i].id != job.ops[k].id;
    assert forall x :: x in added ==> !Seen(job.ops, k, HeadOf(job.groups, x));
    forall v | 0 <= v < next + 1
      ensures Hit(r, v)
    {
      if v < next {
        assert Hit(remap, v);
        var x :| x in remap && remap[x] == v;
        assert x in r && r[x] == v;
      } else {
        var x :| x in added;
        assert x in r && r[x] == v;
      }
    }
  }

  lemma NothingStep(job: Job, k: nat, s: Pass)
    requires Ready(job) && k < |job.ops| && Inv(job, k, s)
    requires forall x :: x in ById(job.ops) ==> job.ops[k].id != Some(HeadOf(job.groups, x))
    ensures KeysRight(job, k + 1, s.remap)
  {
    forall x
      ensures Seen(job.ops, k + 1, x) <==> Seen(job.ops, k, x) || job.ops[k].id == Some(x)
    {
    }
  }

  lemma IdsAppend(ops: seq<Op>, o: Op)
    ensures IdsOf(ops + [o]) == IdsOf(ops) + if o.id.Some? then [o.id.value] else []
  {
    assert (ops + [o])[..|ops|] == ops;
  }

  lemma OpsStep(job: Job, s: Pass, t: Pass, o: Op, added: map<int, int>)
    requires WellGrouped(job) && OpsRight(job, s) && Onto(s.remap, s.next)
    requires t.ops == s.ops + [o] && o.id == Some(s.next) && t.next == s.next + 1 && t.remap == s.remap + added
    requires forall x :: x in added ==> x in ById(job.ops) && added[x] == s.next && o == EmittedFor(job, x, s.next)
    ensures OpsRight(job, t)
  {
    hide EmittedFor;
    ByIdAppend(s.ops, o);
    IdsAppend(s.ops, o);
    forall x | x in t.remap
      ensures x in ById(job.ops) && t.remap[x] in ById(t.ops) && ById(t.ops)[t.remap[x]] == EmittedFor(job, x, t.remap[x])
    {
      if x !in added {
        assert s.remap[x] < s.next;
      }
    }
  }

  lemma ViewStep(job: Job, k: nat, s: Pass)
    requires Ready(job) && k < |job.ops| && Inv(job, k, s) && job.ops[k].id.None?
    ensures Inv(job, k + 1, s.(ops := s.ops + [job.ops[k]]))
  {
    hide HeadOf, ById, EmittedFor, GroupFor, ExternalDeps;
    NothingStep(job, k, s);
    ByIdAppend(s.ops, job.ops[k]);
    IdsAppend(s.ops, job.ops[k]);
  }

  lemma AbsorbedStep(job: Job, k: nat, s: Pass)
    requires Ready(job) && k < |job.ops| && Inv(job, k, s) && job.ops[k].id.Some?
    requires var g := GroupFor(job.groups, job.ops[k].id.value); g.Some? && job.ops[k].id.value != MinOf(g.value)
    ensures Inv(job, k + 1, s)
  {
    var d := job.ops[k].id.value;
    forall x | x in ById(job.ops)
      ensures HeadOf(job.groups, x) != d
    {
      HeadMeans(job.groups, x);
      HeadMeans(job.groups, d);
      assert HeadOf(job.groups, d) != d;
    }
    hide HeadOf, ById, EmittedFor, GroupFor, ExternalDeps, OpsRight, StashRight, FibresRight, Onto;
    NothingStep(job, k, s);
  }

  lemma AloneAdds(job: Job, k: nat)
    requires Ready(job) && k < |job.ops| && job.ops[k].id.Some?
    requires GroupFor(job.groups, job.ops[k].id.value).None?
    ensures AddsAt(job, k, {job.ops[k].id.value})
  {
    var d := job.ops[k].id.value;
    ByIdAt(job.ops, k);
    forall x
      ensures HeadOf(job.groups, x) == d ==> x == d
    {
      HeadMeans(job.groups, x);
    }
  }

  lemma GroupAdds(job: Job, k: nat, g: seq<int>)
    requires Ready(job) && k < |job.ops| && job.ops[k].id.Some? && g in job.groups && job.ops[k].id.value == MinOf(g)
    ensures AddsAt(job, k, AsSet(g))
  {
    assert Known(g, ById(job.ops));
    forall x
      ensures x in g <==> x in ById(job.ops) && HeadOf(job.groups, x) == MinOf(g)
    {
      HeadMeans(job.groups, x);
      if x in g {
        var i := IndexIn(g, x);
      }
    }
  }

  lemma AloneStep(job: Job, k: nat, s: Pass)
    requires Ready(job) && k < |job.ops| && Inv(job, k, s) && job.ops[k].id.Some?
    requires GroupFor(job.groups, job.ops[k].id.value).None?
    ensures Inv(job, k + 1, Emit(job, s, job.ops[k]))
  {
    var o := job.ops[k];
    var d := o.id.value;
    var added := map[d := s.next];
    var t := Emit(job, s, o);
    ByIdAt(job.ops, k);
    AloneAdds(job, k);
    assert added.Keys == {d} && t.remap == s.remap + added;
    assert d in added;
    assert o.(id := Some(s.next)) == EmittedFor(job, d, s.next);
    hide HeadOf, ById, EmittedFor, ExternalDeps;
    KeysStep(job, k, s.remap, added, s.next);
    OpsStep(job, s, t, o.(id := Some(s.next)), added);
    assert StashRight(job, t) by {
      forall x | x in t.remap && x !in added
        ensures t.remap[x] == s.remap[x]
      {
      }
      assert s.next !in s.stashed;
    }
  }

  lemma HeadEmits(job: Job, s: Pass, o: Op, g: seq<int>)
    requires WellGrouped(job) && o.id.Some? && GroupFor(job.groups, o.id.value) == Some(g) && o.id.value == MinOf(g)
    ensures var subs := Members(ById(job.ops), g);
      Emit(job, s, o) == Pass(s.ops + [FusedOp(job, g, subs).(id := Some(s.next))], s.remap + (map x | x in g :: s.next), s.next + 1,
                              s.stashed[s.next := ExternalDeps(g, subs)])
  {
  }

  lemma InvParts(job: Job, k: nat, s: Pass)
    requires WellGrouped(job) && k <= |job.ops|
    ensures Inv(job, k, s) <==>
      KeysRight(job, k, s.remap) && FibresRight(job.groups, s.remap) && Onto(s.remap, s.next) && OpsRight(job, s) && StashRight(job, s)
  {
    hide ById, KeysRight, FibresRight, Onto, OpsRight, StashRight;
  }

  lemma HeadAdds(job: Job, k: nat, g: seq<int>, next: int)
    requires Ready(job) && k < |job.ops| && job.ops[k].id.Some?
    requires GroupFor(job.groups, job.ops[k].id.value) == Some(g) && job.ops[k].id.value == MinOf(g)
    ensures g in job.groups
    ensures var added := map x | x in g :: next; AddsAt(job, k, added.Keys) && MinOf(g) in added
    ensures forall x :: x in g ==> x in ById(job.ops) && GroupFor(job.groups, x) == Some(g)
    ensures forall x :: x in g ==> FusedOp(job, g, Members(ById(job.ops), g)).(id := Some(next)) == EmittedFor(job, x, next)
  {
    GroupAdds(job, k, g);
    hide ById, FusedOp, Members, MinOf, UniqueIds;
    var added := map x | x in g :: next;
    assert added.Keys == AsSet(g);
    forall x | x in g
      ensures x in ById(job.ops) && GroupFor(job.groups, x) == Some(g)
    {
      HeadMeans(job.groups, x);
    }
  }

  lemma HeadStep(job: Job, k: nat, s: Pass, g: seq<int>)
    requires Ready(job) && k < |job.ops| && Inv(job, k, s) && job.ops[k].id.Some?
    requires GroupFor(job.groups, job.ops[k].id.value) == Some(g) && job.ops[k].id.value == MinOf(g)
    ensures Inv(job, k + 1, Emit(job, s, job.ops[k]))
  {
    hide *;
    ReadyParts(job);
    HeadAdds(job, k, g, s.next);
    GroupIsKnown(job, g);
    var f := FusedOp(job, g, Members(ById(job.ops), g)).(id := Some(s.next));
    var added := map x | x in g :: s.next;
    var t := Emit(job, s, job.ops[k]);
    InvParts(job, k, s);
    InvParts(job, k + 1, t);
    HeadEmits(job, s, job.ops[k], g);
    KeysStep(job, k, s.remap, added, s.next);
    OpsStep(job, s, t, f, added);
    StashStep(job, s, t, g, added);
  }

  lemma GroupIsKnown(job: Job, g: seq<int>)
    requires WellGrouped(job) && g in job.groups
    ensures Known(g, ById(job.ops)) && g != []
  {
    hide ById;
  }

  lemma StashStep(job: Job, s: Pass, t: Pass, g: seq<int>, added: map<int, int>)
    requires WellGrouped(job) && StashRight(job, s) && Onto(s.remap, s.next) && g in job.groups
    requires t.next == s.next + 1 && t.remap == s.remap + added
    requires t.stashed == s.stashed[s.next := ExternalDeps(g, Members(ById(job.ops), g))]
    requires forall x :: x in added ==> added[x] == s.next && GroupFor(job.groups, x) == Some(g)
    ensures StashRight(job, t)
  {
    hide GroupFor, ExternalDeps, Members, ById;
    forall x | x in t.remap && x !in added
      ensures t.remap[x] == s.remap[x] < s.next
    {
    }
  }

  lemma ViewEmits(job: Job, s: Pass, o: Op)
    requires WellGrouped(job) && o.id.None?
    ensures Emit(job, s, o) == s.(ops := s.ops + [o])
  {
  }

  lemma AbsorbedEmits(job: Job, s: Pass, o: Op)
    requires WellGrouped(job) && o.id.Some?
    requires var g := GroupFor(job.groups, o.id.value); g.Some? && o.id.value != MinOf(g.value)
    ensures Emit(job, s, o) == s
  {
  }

  lemma EmitStep(job: Job, k: nat, s: Pass)
    requires Ready(job) && k < |job.ops| && Inv(job, k, s)
    ensures Inv(job, k + 1, Emit(job, s, job.ops[k]))
  {
    hide Inv, Emit, NoOverlap, UniqueIds, ById, GroupFor, MinOf;
    var o := job.ops[k];
    if o.id.None? {
      ViewStep(job, k, s);
      ViewEmits(job, s, o);
    } else if GroupFor(job.groups, o.id.value).None? {
      AloneStep(job, k, s);
    } else if o.id.value == MinOf(GroupFor(job.groups, o.id.value).value) {
      HeadStep(job, k, s, GroupFor(job.groups, o.id.value).value);
    } else {
      AbsorbedStep(job, k, s);
      AbsorbedEmits(job, s, o);
    }
  }

  lemma FirstStep(job: Job, k: nat)
    requires WellGrouped(job) && 0 < k <= |job.ops|
    ensures FirstPass(job, k) == Emit(job, FirstPass(job, k - 1), job.ops[k - 1])
  {
  }

  lemma NothingEmitted(job: Job)
    requires Ready(job)
    ensures Inv(job, 0, FirstPass(job, 0))
  {
  }

  lemma {:induction false} PassInvariant(job: Job, k: nat)
    requires Ready(job) && k <= |job.ops|
    ensures Inv(job, k, FirstPass(job, k))
  {
    hide Inv, Emit, FirstPass, NoOverlap, UniqueIds, ById;
    if k == 0 {
      NothingEmitted(job);
    } else {
      PassInvariant(job, k - 1);
      FirstStep(job, k);
      EmitStep(job, k - 1, FirstPass(job, k - 1));
    }
  }

  // ---------------------------------------------------------------- the order of what is emitted

  /** No group has a member with a lesser id. */
  ghost predicate Leads(groups: seq<seq<int>>, x: int) {
    forall g, y :: g in groups && x in g && y in g ==> x <= y
  }

  lemma NotSeenBefore(ops: seq<Op>, k: nat, x: int)
    requires UniqueIds(ops) && k < |ops| && ops[k].id == Some(x)
    ensures !Seen(ops, k, x)
  {
  }

  lemma LeaderIsHead(groups: seq<seq<int>>, x: int)
    requires NonEmptyGroups(groups) && Leads(groups, x) && GroupFor(groups, x).Some?
    ensures MinOf(GroupFor(groups, x).value) == x
  {
  }

  /** What a step enters into the remap was not there. */
  lemma EmitKeeps(job: Job, k: nat, s: Pass)
    requires Ready(job) && k < |job.ops| && Inv(job, k, s)
    ensures forall x :: x in s.remap ==> x in Emit(job, s, job.ops[k]).remap && Emit(job, s, job.ops[k]).remap[x] == s.remap[x]
    ensures forall y :: job.ops[k].id == Some(y) && Leads(job.groups, y) ==>
      y in Emit(job, s, job.ops[k]).remap && Emit(job, s, job.ops[k]).remap[y] == s.next
  {
    hide Leads, Emit, ById, Seen, UniqueIds, NoOverlap, GroupFor, MinOf, Onto, FibresRight, OpsRight, StashRight;
    var o := job.ops[k];
    if o.id.None? {
      ViewEmits(job, s, o);
    } else {
      var d := o.id.value;
      NotSeenBefore(job.ops, k, d);
      if GroupFor(job.groups, d).None? {
        AloneEmits(job, s, o);
      } else if d == MinOf(GroupFor(job.groups, d).value) {
        var g := GroupFor(job.groups, d).value;
        HeadEmits(job, s, o, g);
        forall x | x in g
          ensures x !in s.remap
        {
          HeadMeans(job.groups, x);
        }
      } else {
        AbsorbedEmits(job, s, o);
        if Leads(job.groups, d) { LeaderIsHead(job.groups, d); }
      }
    }
  }

  lemma AloneEmits(job: Job, s: Pass, o: Op)
    requires WellGrouped(job) && o.id.Some? && GroupFor(job.groups, o.id.value).None?
    ensures Emit(job, s, o).remap == s.remap[o.id.value := s.next]
  {
  }

  lemma PassKeeps(job: Job, k: nat)
    requires Ready(job) && k < |job.ops|
    ensures var m, next := FirstPass(job, k).remap, FirstPass(job, k + 1).remap;
      && (forall x :: x in m ==> x in next && next[x] == m[x])
      && forall y :: job.ops[k].id == Some(y) && Leads(job.groups, y) ==> y in next && forall x :: x in m ==> m[x] < next[y]
  {
    var s := FirstPass(job, k);
    PassInvariant(job, k);
    FirstStep(job, k + 1);
    EmitKeeps(job, k, s);
    assert Onto(s.remap, s.next);
    hide Inv, Emit, FirstPass, Ready, Leads;
  }

  lemma {:induction false} LeaderEntered(job: Job, i: nat, x: int, k: nat)
    requires Ready(job) && i < k <= |job.ops| && job.ops[i].id == Some(x) && Leads(job.groups, x)
    ensures x in FirstPass(job, k).remap
  {
    hide *;
    PassKeeps(job, k - 1);
    if k - 1 > i { LeaderEntered(job, i, x, k - 1); }
  }

  lemma {:induction false} LeadersInOrder(job: Job, i: nat, j: nat, x: int, y: int, k: nat)
    requires Ready(job) && i < j < k <= |job.ops| && job.ops[i].id == Some(x) && job.ops[j].id == Some(y)
    requires Leads(job.groups, x) && Leads(job.groups, y)
    ensures var m := FirstPass(job, k).remap; x in m && y in m && m[x] < m[y]
  {
    hide *;
    PassKeeps(job, k - 1);
    if k - 1 > j {
      LeadersInOrder(job, i, j, x, y, k - 1);
    } else {
      LeaderEntered(job, i, x, k - 1);
    }
  }

  /** New ids follow the positions of the old ops, a group standing where its member of least id stood. */
  lemma OrderIsKept(job: Job, i: nat, j: nat, x: int, y: int)
    requires Ready(job) && Rewrite(job).Ok? && i < j < |job.ops| && job.ops[i].id == Some(x) && job.ops[j].id == Some(y)
    requires Leads(job.groups, x) && Leads(job.groups, y)
    ensures Rewrite(job).value.idRemap.Some?
    ensures var m := Rewrite(job).value.idRemap.value; x in m && y in m && m[x] < m[y]
  {
    RewriteIsSecondPass(job);
    hide Rewrite, Ready, Leads;
    LeadersInOrder(job, i, j, x, y, |job.ops|);
  }

  // ---------------------------------------------------------------- the second pass keeps ids

  ghost predicate SameIds(a: seq<Op>, b: seq<Op>) {
    |a| == |b| && forall i :: 0 <= i < |a| ==> a[i].id == b[i].id
  }

  lemma {:induction false} SameIdsOf(a: seq<Op>, b: seq<Op>)
    requires SameIds(a, b)
    ensures IdsOf(a) == IdsOf(b)
  {
    if a != [] {
      SameIdsOf(a[..|a| - 1], b[..|b| - 1]);
    }
  }

  /** The op an id names is the rewired form of the op it named before. */
  lemma {:induction false} ByIdRewired(s: Pass, a: seq<Op>, b: seq<Op>)
    requires |a| == |b| && forall i :: 0 <= i < |a| ==> Rewire(s, a[i]) == Ok(b[i])
    ensures SameIds(a, b)
    ensures ById(a).Keys == ById(b).Keys
    ensures forall v :: v in ById(a) ==> Rewire(s, ById(a)[v]) == Ok(ById(b)[v])
  {
    if a != [] {
      ByIdRewired(s, a[..|a| - 1], b[..|b| - 1]);
      assert Rewire(s, a[|a| - 1]) == Ok(b[|a| - 1]);
    }
  }

  ghost function Finished(job: Job): Pass
    requires WellGrouped(job)
  {
    FirstPass(job, |job.ops|)
  }

  lemma SameKeys<A, B>(m: map<int, A>, n: map<int, B>)
    requires forall x :: x in m <==> x in n
    ensures m.Keys == n.Keys
  {
    assert forall x :: x in m.Keys <==> x in n.Keys;
  }

  lemma AllSeen(job: Job)
    requires Ready(job)
    ensures KeysRight(job, |job.ops|, Finished(job).remap) && Inv(job, |job.ops|, Finished(job))
    ensures Finished(job).remap.Keys == ById(job.ops).Keys
  {
    PassInvariant(job, |job.ops|);
    forall x | x in ById(job.ops)
      ensures Seen(job.ops, |job.ops|, HeadOf(job.groups, x))
    {
      HeadIsKnown(job, x);
      ByIdHas(job.ops, HeadOf(job.groups, x));
    }
    SameKeys(Finished(job).remap, ById(job.ops));
  }

  lemma HeadIsKnown(job: Job, x: int)
    requires WellGrouped(job) && x in ById(job.ops)
    ensures HeadOf(job.groups, x) in ById(job.ops)
  {
    if GroupFor(job.groups, x).Some? {
      var g := GroupFor(job.groups, x).value;
      assert Known(g, ById(job.ops));
      var i := IndexIn(g, MinOf(g));
    }
  }

  ghost predicate Together(groups: seq<seq<int>>, x: int, y: int) {
    exists g :: g in groups && x in g && y in g
  }

  ghost predicate LosslessRemap(job: Job, m: map<int, int>, newIds: seq<int>) {
    && m.Keys == ById(job.ops).Keys
    && (forall v :: 0 <= v < |newIds| ==> newIds[v] == v)
    && (forall v :: 0 <= v < |newIds| <==> Hit(m, v))
    && (forall x, y :: x in m && y in m ==> (m[x] == m[y] <==> x == y || Together(job.groups, x, y)))
  }

  /** `id_remap` names every id of the input, takes exactly the values 0 to n' - 1, which are the
      ids of the output in order, and joins two ids only when one group holds both. */
  lemma RenumberingIsLossless(job: Job)
    requires Ready(job) && Rewrite(job).Ok?
    ensures Rewrite(job).value.idRemap.Some?
    ensures LosslessRemap(job, Rewrite(job).value.idRemap.value, IdsOf(Rewrite(job).value.ops))
  {
    hide Rewire, FirstPass, ById, GroupFor, EmittedFor, ExternalDeps;
    var s := Finished(job);
    var w := Rewrite(job).value;
    AllSeen(job);
    RewriteIsSecondPass(job);
    ByIdRewired(s, s.ops, w.ops);
    SameIdsOf(s.ops, w.ops);
    var m := s.remap;
    forall x, y | x in m && y in m
      ensures m[x] == m[y] <==> x == y || Together(job.groups, x, y)
    {
      SameHead(job.groups, x, y);
    }
  }

  lemma SameHead(groups: seq<seq<int>>, x: int, y: int)
    requires NonEmptyGroups(groups) && NoOverlap(groups)
    ensures HeadOf(groups, x) == HeadOf(groups, y) <==> x == y || Together(groups, x, y)
  {
    HeadMeans(groups, x);
    HeadMeans(groups, y);
    if HeadOf(groups, x) == HeadOf(groups, y) && x != y {
      assert GroupFor(groups, x).Some?;
      var g := GroupFor(groups, x).value;
      assert g in groups && x in g && y in g;
    }
  }

  lemma RewriteIsSecondPass(job: Job)
    requires WellGrouped(job) && Rewrite(job).Ok?
    ensures var s, w := Finished(job), Rewrite(job).value;
      && w.idRemap == Some(s.remap) && |w.ops| == |s.ops| && forall j :: 0 <= j < |s.ops| ==> Rewire(s, s.ops[j]) == Ok(w.ops[j])
  {
    hide Rewire, FirstPass;
  }

  // ---------------------------------------------------------------- when the rewrite succeeds

  ghost predicate DepsResolve(byId: map<int, Op>, group: seq<int>)
    requires Known(group, byId)
  {
    forall i, d :: 0 <= i < |group| && d in byId[group[i]].deps && d !in group ==> d in byId
  }

  /** What makes the rewrite give up: a fused member with a dangling dependency, or an op left alone
      that is itself the product of an earlier fusion. */
  ghost predicate Rewritable(job: Job)
    requires WellGrouped(job)
  {
    && (forall g :: g in job.groups ==> DepsResolve(ById(job.ops), g))
    && (forall x :: x in ById(job.ops) && GroupFor(job.groups, x).None? ==> !ById(job.ops)[x].origin.Fused?)
  }

  lemma {:induction false} IdsAreWhere(ops: seq<Op>, j: nat) returns (v: nat)
    requires j < |ops| && ops[j].id.Some?
    ensures v < |IdsOf(ops)| && IdsOf(ops)[v] == ops[j].id.value
    ensures forall i :: j < i < |ops| && ops[i].id.Some? ==> exists u :: v < u < |IdsOf(ops)| && IdsOf(ops)[u] == ops[i].id.value
    decreases |ops|
  {
    var n := |ops| - 1;
    var init := ops[..n];
    if j == n {
      v := |IdsOf(init)|;
    } else {
      v := IdsAreWhere(init, j);
      forall i | j < i < |ops| && ops[i].id.Some?
        ensures exists u :: v < u < |IdsOf(ops)| && IdsOf(ops)[u] == ops[i].id.value
      {
        if i < n {
          assert init[i] == ops[i];
          var u :| v < u < |IdsOf(init)| && IdsOf(init)[u] == init[i].id.value;
          assert IdsOf(ops)[u] == ops[i].id.value;
        } else {
          assert IdsOf(ops)[|IdsOf(init)|] == ops[i].id.value;
        }
      }
    }
  }

  /** Ids counted up from 0 are distinct. */
  lemma CountedIsUnique(ops: seq<Op>)
    requires forall v :: 0 <= v < |IdsOf(ops)| ==> IdsOf(ops)[v] == v
    ensures UniqueIds(ops)
  {
    forall i, j | 0 <= i < j < |ops| && ops[i].id.Some?
      ensures ops[i].id != ops[j].id
    {
      var v := IdsAreWhere(ops, i);
      if ops[j].id.Some? {
        var u :| v < u < |IdsOf(ops)| && IdsOf(ops)[u] == ops[j].id.value;
      }
    }
  }

  lemma RewireAlone(job: Job, x: int)
    requires Ready(job) && x in ById(job.ops) && GroupFor(job.groups, x).None?
    ensures x in Finished(job).remap && Finished(job).remap[x] in ById(Finished(job).ops)
    ensures
      var s := Finished(job);
      var r := Rewire(s, ById(s.ops)[s.remap[x]]);
         && (r.Ok? <==> !ById(job.ops)[x].origin.Fused?)
         && (r.Ok? ==> r.value.deps == OrderedUnique(KnownImage(ById(job.ops)[x].deps, s.remap)))
  {
    hide ById, HeadOf, ExternalDeps, FirstPass, OrderedUnique, FusedOp;
    AllSeen(job);
  }

  lemma RewireFused(job: Job, x: int, g: seq<int>)
    requires Ready(job) && x in ById(job.ops) && GroupFor(job.groups, x) == Some(g)
    ensures x in Finished(job).remap && Finished(job).remap[x] in ById(Finished(job).ops)
    ensures
      var s := Finished(job);
      var r := Rewire(s, ById(s.ops)[s.remap[x]]);
      var ext := ExternalDeps(g, Members(ById(job.ops), g));
         && (r.Ok? <==> forall d :: d in ext ==> d in ById(job.ops))
         && (r.Ok? ==> Ok(r.value.deps) == Image(ext, s.remap))
  {
    hide ById, HeadOf, ExternalDeps, FirstPass, OrderedUnique;
    AllSeen(job);
  }

  lemma ExternalOfGroup(byId: map<int, Op>, g: seq<int>, d: int)
    requires Known(g, byId)
    ensures d in ExternalDeps(g, Members(byId, g)) <==> d !in g && LeavesAt(byId, g, d)
  {
    hide ExternalDeps;
    var subs := Members(byId, g);
    InExternalDeps(g, subs, d);
    if LeavesAt(byId, g, d) {
      var i :| 0 <= i < |g| && d in byId[g[i]].deps;
      assert subs[i] in subs && d in subs[i].deps;
    }
    if o :| o in subs && d in o.deps {
      var i :| 0 <= i < |subs| && subs[i] == o;
      assert d in byId[g[i]].deps;
    }
  }

  ghost predicate LeavesAt(byId: map<int, Op>, g: seq<int>, d: int)
    requires Known(g, byId)
  {
    exists i :: 0 <= i < |g| && d in byId[g[i]].deps
  }

  lemma ResolveIffExternalKnown(byId: map<int, Op>, g: seq<int>)
    requires Known(g, byId)
    ensures DepsResolve(byId, g) <==> forall d :: d in ExternalDeps(g, Members(byId, g)) ==> d in byId
  {
    hide ExternalDeps, Members;
    forall d
      ensures d in ExternalDeps(g, Members(byId, g)) <==> d !in g && LeavesAt(byId, g, d)
    {
      ExternalOfGroup(byId, g, d);
    }
    forall i, d | 0 <= i < |g| && d in byId[g[i]].deps
      ensures LeavesAt(byId, g, d)
    {
    }
  }

  ghost predicate AllRewire(s: Pass) {
    forall j :: 0 <= j < |s.ops| ==> Rewire(s, s.ops[j]).Ok?
  }

  ghost predicate EachIdRewires(s: Pass) {
    forall v :: v in ById(s.ops) ==> Rewire(s, ById(s.ops)[v]).Ok?
  }

  lemma RewireById(s: Pass)
    requires UniqueIds(s.ops)
    ensures AllRewire(s) <==> EachIdRewires(s)
  {
    hide Rewire, ById;
    if AllRewire(s) {
      forall v | v in ById(s.ops)
        ensures Rewire(s, ById(s.ops)[v]).Ok?
      {
        ByIdHas(s.ops, v);
        var j :| 0 <= j < |s.ops| && s.ops[j] == ById(s.ops)[v];
      }
    }
    if EachIdRewires(s) {
      forall j | 0 <= j < |s.ops|
        ensures Rewire(s, s.ops[j]).Ok?
      {
        IdRewires(s, j);
      }
    }
  }

  lemma IdRewires(s: Pass, j: nat)
    requires UniqueIds(s.ops) && EachIdRewires(s) && j < |s.ops|
    ensures Rewire(s, s.ops[j]).Ok?
  {
    if s.ops[j].id.Some? {
      ByIdAt(s.ops, j);
      var v := s.ops[j].id.value;
      assert Rewire(s, ById(s.ops)[v]).Ok?;
    }
  }

  /** The rewrite succeeds exactly when every dependency leaving a group resolves and no op left
      alone was fused before. */
  lemma RewriteSucceedsIff(job: Job)
    requires Ready(job)
    ensures Rewrite(job).Ok? <==> Rewritable(job)
  {
    hide FirstPass, EmittedFor, Rewire, ExternalDeps, Members, ById, GroupFor;
    var s := Finished(job);
    AllSeen(job);
    CountedIsUnique(s.ops);
    RewireById(s);
    assert Rewrite(job).Ok? <==> AllRewire(s);
    forall v | v in ById(s.ops)
      ensures Hit(s.remap, v)
    {
    }
    forall x | x in ById(job.ops)
      ensures s.remap[x] in ById(s.ops)
      ensures Rewire(s, ById(s.ops)[s.remap[x]]).Ok? <==>
        match GroupFor(job.groups, x)
        case None => !ById(job.ops)[x].origin.Fused?
        case Some(g) => DepsResolve(ById(job.ops), g)
    {
      if GroupFor(job.groups, x).None? {
        RewireAlone(job, x);
      } else {
        var g := GroupFor(job.groups, x).value;
        RewireFused(job, x, g);
        ResolveIffExternalKnown(ById(job.ops), g);
      }
    }
    forall g | g in job.groups
      ensures g[0] in ById(job.ops) && GroupFor(job.groups, g[0]) == Some(g)
    {
      HeadMeans(job.groups, g[0]);
    }
  }

  // ---------------------------------------------------------------- the result is the contraction

  ghost function Before(job: Job): Deps { DepGraph(ById(job.ops)) }

  ghost function After(job: Job): Deps
    requires WellGrouped(job) && Rewrite(job).Ok?
  {
    DepGraph(ById(Rewrite(job).value.ops))
  }

  ghost function Heads(groups: seq<seq<int>>): (r: seq<int>)
    requires NonEmptyGroups(groups)
    ensures |r| == |groups| && forall i :: 0 <= i < |r| ==> groups[i] in groups && r[i] == MinOf(groups[i])
  {
    seq(|groups|, i requires 0 <= i < |groups| => assert groups[i] in groups; MinOf(groups[i]))
  }

  ghost function RepIn(groups: seq<seq<int>>): int -> int
    requires NonEmptyGroups(groups)
  {
    Rep(SetsOf(groups), Heads(groups))
  }

  lemma GroupsDisjoint(groups: seq<seq<int>>)
    requires NonEmptyGroups(groups) && NoOverlap(groups)
    ensures Disjoint(SetsOf(groups), Heads(groups))
  {
    forall i | 0 <= i < |groups|
      ensures Heads(groups)[i] in SetsOf(groups)[i]
    {
      assert groups[i] in groups;
    }
  }

  lemma RepIsHead(groups: seq<seq<int>>, x: int)
    requires NonEmptyGroups(groups) && NoOverlap(groups)
    ensures RepIn(groups)(x) == HeadOf(groups, x)
  {
    GroupsDisjoint(groups);
    RepMeans(SetsOf(groups), Heads(groups), x);
    hide RepOf, MinOf;
    if GroupFor(groups, x).Some? {
      var i :| 0 <= i < |groups| && groups[i] == GroupFor(groups, x).value;
      assert x in SetsOf(groups)[i];
    } else {
      forall i | 0 <= i < |groups|
        ensures x !in SetsOf(groups)[i]
      {
        assert groups[i] in groups;
      }
    }
  }

  /** What the op that `x` ends up in depends on, in the ids of the input. */
  ghost predicate DependsOut(job: Job, x: int, d: int)
    requires WellGrouped(job) && x in ById(job.ops)
  {
    match GroupFor(job.groups, x)
    case None => d in ById(job.ops)[x].deps
    case Some(g) => d !in g && LeavesAt(ById(job.ops), g, d)
  }

  ghost predicate MapsTo(job: Job, m: map<int, int>, x: int, z: int)
    requires WellGrouped(job) && x in ById(job.ops)
  {
    exists d :: d in m && m[d] == z && DependsOut(job, x, d)
  }

  lemma DepsOfAlone(job: Job, x: int, z: int)
    requires Ready(job) && Rewrite(job).Ok? && x in ById(job.ops) && GroupFor(job.groups, x).None?
    ensures x in Finished(job).remap && Finished(job).remap[x] in After(job)
    ensures z in After(job)[Finished(job).remap[x]] <==> MapsTo(job, Finished(job).remap, x, z)
  {
    hide FirstPass, EmittedFor, ExternalDeps, Members, ById, GroupFor, Rewire, SecondPass;
    var s, w := Finished(job), Rewrite(job).value;
    AllSeen(job);
    RewireAlone(job, x);
    RewriteIsSecondPass(job);
    ByIdRewired(s, s.ops, w.ops);
    UniqueKeepsMembers(KnownImage(ById(job.ops)[x].deps, s.remap));
  }

  lemma ImageMembers(deps: seq<int>, m: map<int, int>, z: int)
    requires Image(deps, m).Ok?
    ensures z in Image(deps, m).value <==> exists d :: d in deps && d in m && m[d] == z
  {
    var r := Image(deps, m).value;
    if z in r {
      var i :| 0 <= i < |r| && r[i] == z;
      assert deps[i] in deps;
    }
    if d :| d in deps && d in m && m[d] == z {
      var i :| 0 <= i < |deps| && deps[i] == d;
      assert r[i] == z;
    }
  }

  lemma DepsOfFused(job: Job, x: int, z: int)
    requires Ready(job) && Rewrite(job).Ok? && x in ById(job.ops) && GroupFor(job.groups, x).Some?
    ensures x in Finished(job).remap && Finished(job).remap[x] in After(job)
    ensures z in After(job)[Finished(job).remap[x]] <==> MapsTo(job, Finished(job).remap, x, z)
  {
    hide FirstPass, EmittedFor, ExternalDeps, Members, ById, GroupFor, Rewire, SecondPass, Image, Known, MinOf;
    var s, w, g := Finished(job), Rewrite(job).value, GroupFor(job.groups, x).value;
    AllSeen(job);
    RewireFused(job, x, g);
    RewriteIsSecondPass(job);
    ByIdRewired(s, s.ops, w.ops);
    var ext := ExternalDeps(g, Members(ById(job.ops), g));
    ImageMembers(ext, s.remap, z);
    forall d
      ensures d in ext <==> d !in g && LeavesAt(ById(job.ops), g, d)
    {
      ExternalOfGroup(ById(job.ops), g, d);
    }
  }

  /** Seen from outside, an op without a dependency on itself and a group of ops leave by the same
      kind of edges. */
  lemma OutEdges(job: Job, x: int, d: int)
    requires Ready(job) && x in ById(job.ops) && d in ById(job.ops) && Acyclic(Before(job))
    ensures DependsOut(job, x, d) <==>
      HeadOf(job.groups, d) != HeadOf(job.groups, x) && exists u :: HeadOf(job.groups, u) == HeadOf(job.groups, x) && Edge(Before(job), u, d)
  {
    var byId := ById(job.ops);
    HeadMeans(job.groups, x);
    HeadMeans(job.groups, d);
    if GroupFor(job.groups, x).None? {
      forall u
        ensures HeadOf(job.groups, u) == HeadOf(job.groups, x) <==> u == x
      {
        HeadMeans(job.groups, u);
      }
      if d == x && d in byId[x].deps {
        assert Edge(Before(job), x, x);
        EdgeReaches(Before(job), x, x);
      }
    } else {
      var g := GroupFor(job.groups, x).value;
      assert Known(g, byId);
      hide ById, MinOf, Acyclic, GroupFor;
      forall u
        ensures HeadOf(job.groups, u) == HeadOf(job.groups, x) <==> u in g
      {
        HeadMeans(job.groups, u);
      }
      if u :| u in g && Edge(Before(job), u, d) {
        var i := IndexIn(g, u);
        assert d in byId[g[i]].deps;
      }
      if LeavesAt(byId, g, d) {
        var i :| 0 <= i < |g| && d in byId[g[i]].deps;
        assert g[i] in g && Edge(Before(job), g[i], d);
      }
    }
  }

  lemma ReadyParts(job: Job)
    requires Ready(job)
    ensures WellGrouped(job) && NonEmptyGroups(job.groups) && NoOverlap(job.groups) && UniqueIds(job.ops)
  {
  }

  lemma AfterEdge(job: Job, x: int, y: int)
    requires Ready(job) && Rewrite(job).Ok? && x in ById(job.ops) && y in ById(job.ops)
    ensures x in Finished(job).remap && y in Finished(job).remap
    ensures var m := Finished(job).remap; Edge(After(job), m[x], m[y]) <==> MapsTo(job, m, x, m[y])
  {
    hide FirstPass, ById, GroupFor, Rewrite, MapsTo, DepGraph, Finished;
    RemapKeys(job);
    var m := Finished(job).remap;
    if GroupFor(job.groups, x).None? { DepsOfAlone(job, x, m[y]); } else { DepsOfFused(job, x, m[y]); }
    if GroupFor(job.groups, y).None? { DepsOfAlone(job, y, 0); } else { DepsOfFused(job, y, 0); }
  }

  lemma RemapKeys(job: Job)
    requires Ready(job)
    ensures Finished(job).remap.Keys == ById(job.ops).Keys && FibresRight(job.groups, Finished(job).remap)
    ensures Onto(Finished(job).remap, Finished(job).next)
  {
    AllSeen(job);
  }

  /** Dependencies leaving op `x` towards what `y` ends up in are contracted edges. */
  lemma MappedEdge(job: Job, m: map<int, int>, x: int, y: int)
    requires Ready(job) && Acyclic(Before(job)) && m.Keys == ById(job.ops).Keys && FibresRight(job.groups, m)
    requires x in ById(job.ops) && y in ById(job.ops)
    ensures MapsTo(job, m, x, m[y]) <==>
            Edge(Contract(Before(job), RepIn(job.groups)), HeadOf(job.groups, x), HeadOf(job.groups, y))
  {
    var g, rep := Before(job), RepIn(job.groups);
    var hx, hy := HeadOf(job.groups, x), HeadOf(job.groups, y);
    ContractEdge(g, rep, hx, hy);
    hide ById, GroupFor, HeadOf, Contract, Acyclic, RepIn, DependsOut, Reaches, DepGraph;
    if MapsTo(job, m, x, m[y]) {
      var d :| d in m && m[d] == m[y] && DependsOut(job, x, d);
      OutEdges(job, x, d);
      var u :| HeadOf(job.groups, u) == hx && Edge(g, u, d);
      RepIsHead(job.groups, u);
      RepIsHead(job.groups, d);
    }
    if Edge(Contract(g, rep), hx, hy) {
      var u, d :| Edge(g, u, d) && rep(u) == hx && rep(d) == hy;
      RepIsHead(job.groups, u);
      RepIsHead(job.groups, d);
      EdgeEnds(job, u, d);
      OutEdges(job, x, d);
    }
  }

  lemma EdgeEnds(job: Job, u: int, d: int)
    requires Edge(Before(job), u, d)
    ensures d in ById(job.ops)
  {
  }

  /** The rewritten dependency graph is the contraction of the original one under new names. */
  lemma EdgesAreContracted(job: Job, x: int, y: int)
    requires Ready(job) && Rewrite(job).Ok? && Acyclic(Before(job))
    requires x in ById(job.ops) && y in ById(job.ops)
    ensures x in Finished(job).remap && y in Finished(job).remap
    ensures Edge(After(job), Finished(job).remap[x], Finished(job).remap[y]) <==>
            Edge(Contract(Before(job), RepIn(job.groups)), HeadOf(job.groups, x), HeadOf(job.groups, y))
  {
    hide *;
    ReadyParts(job);
    RemapKeys(job);
    AfterEdge(job, x, y);
    MappedEdge(job, Finished(job).remap, x, y);
  }

  lemma AfterNodes(job: Job)
    requires Ready(job) && Rewrite(job).Ok?
    ensures forall v :: v in After(job) <==> 0 <= v < Finished(job).next
  {
    hide FirstPass, Rewire, SecondPass, EmittedFor, ById;
    AllSeen(job);
    RewriteIsSecondPass(job);
    ByIdRewired(Finished(job), Finished(job).ops, Rewrite(job).value.ops);
  }

  lemma ContractNodes(job: Job, h: int)
    requires Ready(job)
    ensures h in Contract(Before(job), RepIn(job.groups)) <==> h in ById(job.ops) && HeadOf(job.groups, h) == h
  {
    hide ById, RepOf, MinOf, GroupFor, HeadOf, RepIn;
    var g, rep := Before(job), RepIn(job.groups);
    forall u
      ensures rep(u) == HeadOf(job.groups, u)
    {
      RepIsHead(job.groups, u);
    }
    if h in Contract(g, rep) {
      var u :| u in g && rep(u) == h;
      HeadIsKnown(job, u);
      HeadMeans(job.groups, u);
    }
    if h in ById(job.ops) && HeadOf(job.groups, h) == h {
      assert h in g && rep(h) == h;
    }
  }

  lemma SameCycles(job: Job)
    requires Ready(job) && Rewrite(job).Ok? && Acyclic(Before(job))
    ensures Acyclic(After(job)) <==> Acyclic(Contract(Before(job), RepIn(job.groups)))
  {
    hide *;
    ReadyParts(job);
    var c, h, m := Contract(Before(job), RepIn(job.groups)), After(job), Finished(job).remap;
    var f := (x: int) => if x in m then m[x] else 0;
    RemapKeys(job);
    AfterNodes(job);
    forall a | a in c
      ensures a in m && HeadOf(job.groups, a) == a && f(a) == m[a] && f(a) in h
    {
      ContractNodes(job, a);
      InRange(m, Finished(job).next, a);
    }
    forall a, b | a in c && b in c
      ensures f(a) == f(b) ==> a == b
      ensures Edge(c, a, b) <==> Edge(h, f(a), f(b))
    {
      ContractNodes(job, a);
      ContractNodes(job, b);
      OneFibre(job.groups, m, a, b);
      EdgesAreContracted(job, a, b);
    }
    forall y | y in h
      ensures exists a :: a in c && f(a) == y
    {
      var x := Preimage(m, Finished(job).next, y);
      var a := HeadOf(job.groups, x);
      HeadMeans(job.groups, x);
      HeadIsKnown(job, x);
      ContractNodes(job, a);
      OneFibre(job.groups, m, a, x);
    }
    RelabelKeepsCycles(c, h, f);
  }

  lemma InRange(m: map<int, int>, n: int, x: int)
    requires Onto(m, n) && x in m
    ensures 0 <= m[x] < n
  {
  }

  lemma Preimage(m: map<int, int>, n: int, v: int) returns (x: int)
    requires Onto(m, n) && 0 <= v < n
    ensures x in m && m[x] == v
  {
    assert Hit(m, v);
    x :| x in m && m[x] == v;
  }

  lemma OneFibre(groups: seq<seq<int>>, m: map<int, int>, x: int, y: int)
    requires NonEmptyGroups(groups) && FibresRight(groups, m) && x in m && y in m
    ensures m[x] == m[y] <==> HeadOf(groups, x) == HeadOf(groups, y)
  {
  }

  /** The result of a hint is schedulable exactly when each group is closed in the graph as
      contracted by the groups before it. */
  lemma ResultSchedulableIff(job: Job)
    requires Ready(job) && Rewrite(job).Ok? && Acyclic(Before(job))
    ensures Acyclic(After(job)) <==> ClosedOneByOne(Before(job), SetsOf(job.groups), Heads(job.groups))
  {
    hide Acyclic, Contract, DepGraph, ById, Rewrite, ClosedOneByOne, RepOf;
    SameCycles(job);
    GroupsDisjoint(job.groups);
    JointContractionIsExact(Before(job), SetsOf(job.groups), Heads(job.groups));
  }

  /** Fusing one accepted group always leaves a schedulable graph. */
  lemma OneGroupStaysSchedulable(job: Job, group: seq<int>)
    requires UniqueIds(job.ops) && job.groups == [group] && Valid(group, ById(job.ops)) && Acyclic(Before(job))
    ensures WellGrouped(job) && (Rewrite(job).Ok? ==> Acyclic(After(job)))
  {
    hide *;
    OneGroupReady(job, group);
    ReadyParts(job);
    if Rewrite(job).Ok? {
      SameCycles(job);
      var rep, one := RepIn(job.groups), Collapse(AsSet(group), MinOf(group));
      forall x
        ensures rep(x) == one(x)
      {
        RepIsHead(job.groups, x);
        HeadOfOne(group, x);
      }
      SameContraction(Before(job), rep, one);
      ClosureCheckIsExact(Before(job), AsSet(group), MinOf(group));
    }
  }

  lemma OneGroupReady(job: Job, group: seq<int>)
    requires UniqueIds(job.ops) && job.groups == [group] && Valid(group, ById(job.ops))
    ensures Ready(job) && group != [] && MinOf(group) in AsSet(group) && Closed(Before(job), AsSet(group))
  {
    ValidParts(group, ById(job.ops));
    ValidIsDistinct(group, ById(job.ops));
    hide DepGraph, ById, Closed, Valid, MinOf;
  }

  lemma HeadOfOne(group: seq<int>, x: int)
    requires group != []
    ensures NonEmptyGroups([group]) && HeadOf([group], x) == Collapse(AsSet(group), MinOf(group))(x)
  {
    hide MinOf;
  }

  lemma SameContraction(g: Deps, r1: int -> int, r2: int -> int)
    requires forall x :: r1(x) == r2(x)
    ensures Contract(g, r1) == Contract(g, r2)
  {
    var a, b := Contract(g, r1), Contract(g, r2);
    assert Images(g, r1) == Images(g, r2);
    forall y | y in a
      ensures a[y] == b[y]
    {
      forall z
        ensures z in a[y] <==> z in b[y]
      {
        InTarget(g, r1, y, z);
        InTarget(g, r2, y, z);
        ContractEdge(g, r1, y, z);
        ContractEdge(g, r2, y, z);
      }
    }
  }

  /** Fusing all pairs of one accepted group, as pairwise mode does, always leaves a schedulable graph. */
  lemma PairwiseStaysSchedulable(job: Job, group: seq<int>)
    requires UniqueIds(job.ops) && Valid(group, ById(job.ops)) && Acyclic(Before(job))
    requires |group| % 2 == 0 && job.groups == PairsOf(group)
    ensures Ready(job) && (Rewrite(job).Ok? ==> Acyclic(After(job)))
  {
    ValidParts(group, ById(job.ops));
    hide Acyclic, Contract, DepGraph, ById, Rewrite, Closed, Valid, MinOf;
    forall p | p in job.groups
      ensures p != [] && Known(p, ById(job.ops))
    {
      var i :| 0 <= i < |group| / 2 && p == PairsOf(group)[i];
      PairInOrder(group, ById(job.ops), i);
    }
    assert HeadsOf(PairsOf(group), Heads(job.groups));
    PairsAreDisjoint(group, Heads(job.groups));
    assert NoOverlap(job.groups) by {
      forall i, j | 0 <= i < j < |job.groups|
        ensures AsSet(job.groups[i]) !! AsSet(job.groups[j])
      {
        assert SetsOf(job.groups)[i] !! SetsOf(job.groups)[j];
      }
    }
    if Rewrite(job).Ok? {
      SameCycles(job);
      PairsStaySchedulable(group, ById(job.ops), Heads(job.groups));
    }
  }
}
