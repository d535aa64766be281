/** Graph surgery (pipeline/graph_edit.py): the editor a rewrite is written with, and the patch
    an accepted rewrite is stored as.

    The theorems: a patch made by `Diff` reproduces the edited graph exactly when the edit is of
    a kind patches can express; every run of the editor is of that kind; and a patch that
    changes the ops never applies to its own result. */
module GraphEdit {
  import opened Ir
  import opened Seqs
  import opened Digraph
  import opened Toposort

  // ---------------------------------------------------------------- ops by content

  /** What op_digest hashes: an op without its bookkeeping. */
  function Content(o: Op): Op {
    o.(id := None, deps := [], marks := map[])
  }

  function Contents(ops: seq<Op>): set<Op> {
    set o | o in ops :: Content(o)
  }

  predicate HasContent(ops: seq<Op>, o: Op) {
    Content(o) in Contents(ops)
  }

  predicate HasName(ops: seq<Op>, n: string) {
    exists x :: x in ops && x.name == n
  }

  /** The same op but for its bookkeeping. */
  predicate Alike(a: Op, b: Op) {
    && a.name == b.name && a.body == b.body && a.inputs == b.inputs && a.outputs == b.outputs && a.internal == b.internal
    && a.subOps == b.subOps && a.target == b.target && a.origin == b.origin
  }

  predicate HasAlike(ops: seq<Op>, o: Op) { exists x :: x in ops && Alike(o, x) }

  /** The same ops, whatever their order and bookkeeping. */
  ghost predicate SameOps(a: seq<Op>, b: seq<Op>) {
    && UniqueNames(a) && UniqueNames(b)
    && (forall o :: o in a ==> HasAlike(b, o)) && (forall o :: o in b ==> HasAlike(a, o))
  }

  /** The digest tells apart exactly the ops that differ in more than bookkeeping. */
  lemma DigestTells(a: Op, b: Op)
    ensures Content(a) == Content(b) <==> Alike(a, b)
  {
  }

  /** Digests compare lists of ops as they should. */
  lemma DigestsCompare(a: seq<Op>, b: seq<Op>)
    requires UniqueNames(a) && UniqueNames(b)
    ensures SameContents(a, b) <==> SameOps(a, b)
  {
    HalfCompared(a, b);
    HalfCompared(b, a);
    hide UniqueNames, HasAlike;
  }

  lemma HalfCompared(a: seq<Op>, b: seq<Op>)
    ensures Contents(a) <= Contents(b) <==> forall o :: o in a ==> HasAlike(b, o)
  {
    hide Alike;
    forall x, y
      ensures Content(x) == Content(y) <==> Alike(x, y)
    {
      DigestTells(x, y);
    }
    hide Content;
    if Contents(a) <= Contents(b) {
      forall o | o in a
        ensures HasAlike(b, o)
      {
        assert Content(o) in Contents(a);
        var x :| x in b && Content(x) == Content(o);
        assert Alike(o, x);
      }
    }
    if forall o :: o in a ==> HasAlike(b, o) {
      forall c | c in Contents(a)
        ensures c in Contents(b)
      {
        var o :| o in a && Content(o) == c;
        assert HasAlike(b, o);
        var x :| x in b && Alike(o, x);
        assert Content(x) == c;
      }
    }
  }

  /** The same by digest. */
  ghost predicate SameContents(a: seq<Op>, b: seq<Op>) {
    UniqueNames(a) && UniqueNames(b) && Contents(a) == Contents(b)
  }

  function Map<T, U>(s: seq<T>, f: T -> U): (r: seq<U>)
    ensures |r| == |s| && forall i :: 0 <= i < |s| ==> r[i] == f(s[i])
  {
    seq(|s|, i requires 0 <= i < |s| => f(s[i]))
  }

  // ---------------------------------------------------------------- patches

  datatype Patch = Patch(
    removeOps: set<string>,
    addOps: seq<Op>,
    addTensors: map<Name, TensorMeta>,
    removeTensors: set<Name>,
    changedTensors: set<Name>,
    derivations: map<string, string>,
    weightDtypes: map<string, string>,
    requiresOps: map<string, Op>)

  function Dropped(base: seq<Op>, edited: seq<Op>): seq<Op> {
    Filter(base, (o: Op) => !HasContent(edited, o))
  }

  function Names(ops: seq<Op>): set<string> {
    set o | o in ops :: o.name
  }

  function OnlyNew<K, V>(now: map<K, V>, before: map<K, V>): map<K, V> {
    map k | k in now && k !in before :: now[k]
  }

  function Digests(ops: seq<Op>): map<string, Op> {
    if ops == [] then map[] else map[ops[0].name := Content(ops[0])] + Digests(ops[1..])
  }

  function Diff(base: Graph, edited: Graph): Patch {
    var dropped := Dropped(base.ops, edited.ops);
    Patch(
      Names(dropped),
      Map(Dropped(edited.ops, base.ops), Content),
      OnlyNew(edited.tensors, base.tensors),
      base.tensors.Keys - edited.tensors.Keys,
      (set t | t in edited.tensors && t in base.tensors && edited.tensors[t] != base.tensors[t]),
      OnlyNew(edited.derivations, base.derivations),
      OnlyNew(edited.weightDtypes, base.weightDtypes),
      Digests(dropped))
  }

  // ---------------------------------------------------------------- applying a patch

  predicate Requirement(ops: seq<Op>, n: string, digest: Op) {
    exists x :: x in ops && x.name == n && Content(x) == digest
  }

  predicate Uses(ops: seq<Op>, t: Name) {
    exists o :: o in ops && (t in o.inputs || t in o.outputs)
  }

  predicate Conflict<K, V(==)>(a: map<K, V>, b: map<K, V>) {
    exists k :: k in a && k in b && a[k] != b[k]
  }

  ghost predicate NameTaken(kept: seq<Op>, added: seq<Op>) {
    exists i :: 0 <= i < |added| && (HasName(kept, added[i].name) || HasName(added[..i], added[i].name))
  }

  function Patched(g: Graph, p: Patch): Graph {
    var ops := Filter(g.ops, (o: Op) => o.name !in p.removeOps) + p.addOps;
    var tensors := g.tensors + p.addTensors;
    var gone := set t | t in p.removeTensors && !Uses(ops, t);
    g.(ops := ops,
       tensors := map t | t in tensors && t !in gone :: tensors[t],
       derivations := g.derivations + p.derivations,
       weightDtypes := if p.derivations != map[] then g.weightDtypes + p.weightDtypes else g.weightDtypes)
  }

  ghost function Applied(g: Graph, p: Patch): Result<Graph, PatchError> {
    if exists n :: n in p.requiresOps && !Requirement(g.ops, n, p.requiresOps[n]) then Err(Stale)
    else if NameTaken(Filter(g.ops, (o: Op) => o.name !in p.removeOps), p.addOps) then Err(Exists)
    else if Conflict(p.addTensors, g.tensors) then Err(Exists)
    else if Conflict(p.derivations, g.derivations) then Err(Exists)
    else Sorted(Patched(g, p))
  }

  method AppendAll(kept: seq<Op>, added: seq<Op>) returns (ops: seq<Op>, taken: bool)
    ensures taken <==> NameTaken(kept, added)
    ensures !taken ==> ops == kept + added
  {
    ops, taken := kept, false;
    var names := Names(kept);
    for i := 0 to |added|
      invariant ops == kept + added[..i]
      invariant forall n :: n in names <==> HasName(kept, n) || HasName(added[..i], n)
      invariant forall j :: 0 <= j < i ==> !HasName(kept, added[j].name) && !HasName(added[..j], added[j].name)
    {
      if added[i].name in names {
        taken := true;
        return;
      }
      names := names + {added[i].name};
      ghost var upto := added[..i + 1];
      assert upto == added[..i] + [added[i]];
      ops := ops + [added[i]];
    }
    assert added[..|added|] == added;
  }

  method DropUnused(all: map<Name, TensorMeta>, remove: set<Name>, ops: seq<Op>) returns (tensors: map<Name, TensorMeta>)
    ensures tensors == map t | t in all && !(t in remove && !Uses(ops, t)) :: all[t]
  {
    tensors := all;
    var todo := remove;
    while todo != {}
      invariant todo <= remove
      invariant tensors == map t | t in all && !(t in remove - todo && !Uses(ops, t)) :: all[t]
    {
      var t :| t in todo;
      if !Uses(ops, t) { tensors := tensors - {t}; }
      todo := todo - {t};
    }
  }

  method CheckRequired(ops: seq<Op>, required: map<string, Op>) returns (stale: bool)
    ensures stale <==> exists n :: n in required && !Requirement(ops, n, required[n])
  {
    var todo := required.Keys;
    while todo != {}
      invariant todo <= required.Keys
      invariant forall n :: n in required && n !in todo ==> Requirement(ops, n, required[n])
    {
      var n :| n in todo;
      if !Requirement(ops, n, required[n]) { return true; }
      todo := todo - {n};
    }
    return false;
  }

  method ApplyPatch(g: Graph, p: Patch) returns (r: Result<Graph, PatchError>)
    ensures r == Applied(g, p)
  {
    var stale := CheckRequired(g.ops, p.requiresOps);
    if stale { return Err(Stale); }
    var ops, taken := AppendAll(Filter(g.ops, (o: Op) => o.name !in p.removeOps), p.addOps);
    if taken { return Err(Exists); }
    if Conflict(p.addTensors, g.tensors) { return Err(Exists); }
    var tensors := DropUnused(g.tensors + p.addTensors, p.removeTensors, ops);
    if Conflict(p.derivations, g.derivations) { return Err(Exists); }
    var weightDtypes := g.weightDtypes;
    if p.derivations != map[] { weightDtypes := weightDtypes + p.weightDtypes; }
    var result := g.(ops := ops, tensors := tensors, derivations := g.derivations + p.derivations, weightDtypes := weightDtypes);
    assert result.tensors == Patched(g, p).tensors;
    r := Toposort.Toposort(result);
  }

  // ---------------------------------------------------------------- same ops sort alike

  lemma ByName(ops: seq<Op>, a: Op, b: Op)
    requires UniqueNames(ops) && a in ops && b in ops && a.name == b.name
    ensures a == b
  {
  }

  ghost function Partner(a: seq<Op>, b: seq<Op>, i: nat): (j: nat)
    requires SameContents(a, b) && i < |a|
    ensures j < |b| && Content(b[j]) == Content(a[i])
  {
    assert Content(a[i]) in Contents(a);
    var x :| x in b && Content(x) == Content(a[i]);
    var j: nat :| j < |b| && b[j] == x;
    j
  }

  lemma PartnerBack(a: seq<Op>, b: seq<Op>, i: nat)
    requires SameContents(a, b) && i < |a|
    ensures Partner(b, a, Partner(a, b, i)) == i
  {
    var k := Partner(b, a, Partner(a, b, i));
    assert Content(a[k]).name == a[k].name && Content(a[i]).name == a[i].name;
  }

  /** Whether a graph sorts does not depend on op order or bookkeeping. */
  lemma SameOpsSortAlike(g: Graph, h: Graph)
    requires SameOps(g.ops, h.ops) && GivenTensors(g) == GivenTensors(h)
    requires Sorted(g).Ok?
    ensures Sorted(h).Ok?
  {
    DigestsCompare(g.ops, h.ops);
    SameContentsSortAlike(g, h);
  }

  lemma SameContentsSortAlike(g: Graph, h: Graph)
    requires SameContents(g.ops, h.ops) && GivenTensors(g) == GivenTensors(h)
    requires Sorted(g).Ok?
    ensures Sorted(h).Ok?
  {
    var a, b := g.ops, h.ops;
    forall j | 0 <= j < |b|
      ensures Makes(b[j]) == Makes(a[Partner(b, a, j)]) && b[j].inputs == a[Partner(b, a, j)].inputs
    {
      assert Content(a[Partner(b, a, j)]).inputs == Content(b[j]).inputs;
      assert Content(a[Partner(b, a, j)]).outputs == Content(b[j]).outputs;
      assert Content(a[Partner(b, a, j)]).internal == Content(b[j]).internal;
    }
    forall j: nat, k: nat, t | Maker(b, j, t) && Maker(b, k, t)
      ensures j == k
    {
      assert Maker(a, Partner(b, a, j), t) && Maker(a, Partner(b, a, k), t);
      PartnerBack(b, a, j);
      PartnerBack(b, a, k);
    }
    if HasOrphan(h) {
      var i: nat, t :| IsOrphan(h, i, t);
      forall j: nat
        ensures !Maker(a, j, t)
      {
        if j < |a| {
          PartnerBack(a, b, j);
          assert !Maker(b, Partner(a, b, j), t);
        }
      }
      assert IsOrphan(g, Partner(b, a, i), t);
    }
    SameContentsSameCycles(a, b);
  }

  lemma SameReads(a: seq<Op>, b: seq<Op>, i: nat, j: nat)
    requires SameContents(a, b) && i < |a| && j < |a|
    ensures ReadsFrom(a, i, j) <==> ReadsFrom(b, Partner(a, b, i), Partner(a, b, j))
  {
    var x, y := Content(a[i]), Content(a[j]);
    assert x.inputs == a[i].inputs && x.inputs == b[Partner(a, b, i)].inputs;
    assert Makes(y) == Makes(a[j]) && Makes(y) == Makes(b[Partner(a, b, j)]);
  }

  ghost function PartnerOf(a: seq<Op>, b: seq<Op>, x: int): int
    requires SameContents(a, b)
  {
    if 0 <= x < |a| then Partner(a, b, x) as int else x
  }

  lemma PartnerEdge(a: seq<Op>, b: seq<Op>, x: nat, y: nat)
    requires SameContents(a, b) && x < |a| && y < |a|
    ensures Partner(a, b, x) == Partner(a, b, y) ==> x == y
    ensures Edge(AsDeps(DepsOf(a)), x, y) <==> Edge(AsDeps(DepsOf(b)), Partner(a, b, x), Partner(a, b, y))
  {
    PartnerBack(a, b, x);
    PartnerBack(a, b, y);
    SameReads(a, b, x, y);
    EdgeIsRead(a, x, y);
    EdgeIsRead(b, Partner(a, b, x), Partner(a, b, y));
  }

  lemma EdgeIsRead(a: seq<Op>, x: nat, y: nat)
    requires x < |a| && y < |a|
    ensures Edge(AsDeps(DepsOf(a)), x, y) <==> x != y && ReadsFrom(a, x, y)
  {
    assert y in DepsOf(a)[x] <==> x != y && ReadsFrom(a, x, y);
  }

  lemma SameContentsSameCycles(a: seq<Op>, b: seq<Op>)
    requires SameContents(a, b)
    ensures Acyclic(AsDeps(DepsOf(a))) <==> Acyclic(AsDeps(DepsOf(b)))
  {
    var ga, gb := AsDeps(DepsOf(a)), AsDeps(DepsOf(b));
    var f := (x: int) => PartnerOf(a, b, x);
    forall x, y | x in ga && y in ga
      ensures f(x) == f(y) ==> x == y
      ensures Edge(ga, x, y) <==> Edge(gb, f(x), f(y))
    {
      PartnerEdge(a, b, x, y);
    }
    forall y | y in gb
      ensures exists x :: x in ga && f(x) == y
    {
      PartnerBack(b, a, y);
      assert f(Partner(b, a, y)) == y;
    }
    RelabelKeepsCycles(ga, gb, f);
  }

  // ---------------------------------------------------------------- the round trip

  /** What a patch can express: io is left alone, no registered tensor changes, an unregistered
      tensor is out of use, and derived weights are only added. Dtypes of weights travel only
      in the company of a new derivation. */
  ghost predicate Expressible(base: Graph, edited: Graph) {
    && edited.inputs == base.inputs && edited.outputs == base.outputs
    && !Conflict(base.tensors, edited.tensors)
    && (forall t :: t in base.tensors && t !in edited.tensors ==> !Uses(edited.ops, t))
    && base.derivations.Keys <= edited.derivations.Keys && !Conflict(base.derivations, edited.derivations)
    && base.weightDtypes.Keys <= edited.weightDtypes.Keys && !Conflict(base.weightDtypes, edited.weightDtypes)
    && (edited.weightDtypes == base.weightDtypes || edited.derivations != base.derivations)
  }

  /** The result carries the edited graph, op order and bookkeeping aside. */
  ghost predicate Reproduces(r: Result<Graph, PatchError>, edited: Graph) {
    && r.Ok?
    && SameOps(r.value.ops, edited.ops)
    && r.value == edited.(ops := r.value.ops)
  }

  lemma {:induction false} FilterKeepsNames(ops: seq<Op>, keep: Op -> bool)
    requires UniqueNames(ops)
    ensures UniqueNames(Filter(ops, keep))
  {
    if ops != [] {
      FilterKeepsNames(ops[1..], keep);
      var rest := Filter(ops[1..], keep);
      forall i | 0 <= i < |rest|
        ensures rest[i].name != ops[0].name
      {
        assert rest[i] in ops[1..];
      }
    }
  }

  lemma MapKeepsNames(ops: seq<Op>)
    requires UniqueNames(ops)
    ensures UniqueNames(Map(ops, Content))
    ensures Contents(Map(ops, Content)) == Contents(ops)
  {
    var m := Map(ops, Content);
    forall c | c in Contents(ops)
      ensures c in Contents(m)
    {
      var i :| 0 <= i < |ops| && Content(ops[i]) == c;
      assert m[i] in m && Content(m[i]) == c;
    }
    forall c | c in Contents(m)
      ensures c in Contents(ops)
    {
      var i :| 0 <= i < |m| && Content(m[i]) == c;
      assert ops[i] in ops && Content(ops[i]) == c;
    }
  }

  ghost function Kept(base: seq<Op>, edited: seq<Op>): seq<Op> {
    Filter(base, (o: Op) => o.name !in Names(Dropped(base, edited)))
  }

  /** An op stays exactly when the edited graph still has it. */
  lemma KeptHasContent(base: seq<Op>, edited: seq<Op>, o: Op)
    requires UniqueNames(base)
    ensures o in Kept(base, edited) <==> o in base && HasContent(edited, o)
  {
    if o in base && o.name in Names(Dropped(base, edited)) {
      var x :| x in Dropped(base, edited) && x.name == o.name;
      ByName(base, x, o);
    }
  }

  lemma RebuiltContents(base: seq<Op>, edited: seq<Op>)
    requires UniqueNames(base)
    ensures Contents(Kept(base, edited) + Map(Dropped(edited, base), Content)) == Contents(edited)
  {
    var kept, fresh_ := Kept(base, edited), Dropped(edited, base);
    var added := Map(fresh_, Content);
    var both := kept + added;
    forall c | c in Contents(edited)
      ensures c in Contents(both)
    {
      var e :| e in edited && Content(e) == c;
      if HasContent(base, e) {
        var o :| o in base && Content(o) == c;
        KeptHasContent(base, edited, o);
        assert o in both;
      } else {
        var i :| 0 <= i < |fresh_| && fresh_[i] == e;
        assert added[i] in both && Content(added[i]) == c;
      }
    }
    forall c | c in Contents(both)
      ensures c in Contents(edited)
    {
      var o :| o in both && Content(o) == c;
      if o in kept {
        KeptHasContent(base, edited, o);
      } else {
        var i :| 0 <= i < |added| && added[i] == o;
        assert fresh_[i] in fresh_ && Content(fresh_[i]) == c;
      }
    }
  }

  lemma RebuiltNames(base: seq<Op>, edited: seq<Op>)
    requires UniqueNames(base) && UniqueNames(edited)
    ensures UniqueNames(Kept(base, edited) + Map(Dropped(edited, base), Content))
    ensures !NameTaken(Kept(base, edited), Map(Dropped(edited, base), Content))
  {
    var kept, added := Kept(base, edited), Map(Dropped(edited, base), Content);
    FilterKeepsNames(base, (o: Op) => o.name !in Names(Dropped(base, edited)));
    FilterKeepsNames(edited, (o: Op) => !HasContent(base, o));
    MapKeepsNames(Dropped(edited, base));
    forall o, a | o in kept && a in added
      ensures o.name != a.name
    {
      KeptHasContent(base, edited, o);
      KeptAndAddedDiffer(base, edited, o, a);
    }
    AppendedNames(kept, added);
  }

  lemma AppendedNames(kept: seq<Op>, added: seq<Op>)
    requires UniqueNames(kept) && UniqueNames(added)
    requires forall o, a :: o in kept && a in added ==> o.name != a.name
    ensures UniqueNames(kept + added)
    ensures !NameTaken(kept, added)
  {
    forall i | 0 <= i < |added|
      ensures !HasName(kept, added[i].name) && !HasName(added[..i], added[i].name)
    {
      assert added[i] in added;
    }
  }

  /** Keeping and adding rebuilds the op set of the edited graph. */
  lemma OpsRoundTrip(base: seq<Op>, edited: seq<Op>)
    requires UniqueNames(base) && UniqueNames(edited)
    ensures SameContents(Kept(base, edited) + Map(Dropped(edited, base), Content), edited)
    ensures !NameTaken(Kept(base, edited), Map(Dropped(edited, base), Content))
  {
    RebuiltContents(base, edited);
    RebuiltNames(base, edited);
  }

  lemma KeptAndAddedDiffer(base: seq<Op>, edited: seq<Op>, o: Op, a: Op)
    requires UniqueNames(base) && UniqueNames(edited)
    requires o in base && HasContent(edited, o)
    requires a in Map(Dropped(edited, base), Content)
    ensures o.name != a.name
  {
    var e :| e in Dropped(edited, base) && a == Content(e);
    var e2 :| e2 in edited && Content(e2) == Content(o);
    assert Content(e2).name == e2.name && Content(o).name == o.name && Content(e).name == e.name;
    assert Content(o) in Contents(base);
    if o.name == a.name {
      ByName(edited, e, e2);
    }
  }

  lemma {:induction false} DigestsHold(ops: seq<Op>, all: seq<Op>)
    requires forall o :: o in ops ==> o in all
    ensures Digests(ops).Keys == Names(ops)
    ensures forall n :: n in Digests(ops) ==> Requirement(all, n, Digests(ops)[n])
  {
    if ops != [] {
      DigestsHold(ops[1..], all);
      assert ops == [ops[0]] + ops[1..];
      forall n | n in Names(ops)
        ensures n in Digests(ops)
      {
        var o :| o in ops && o.name == n;
        if o != ops[0] { assert o in ops[1..] && o.name in Names(ops[1..]); }
      }
      forall n | n in Digests(ops)
        ensures n in Names(ops) && Requirement(all, n, Digests(ops)[n])
      {
        if n in Digests(ops[1..]) {
          var o :| o in ops[1..] && o.name == n;
          assert o in ops;
        } else {
          assert ops[0] in ops;
        }
      }
    }
  }

  /** Up to the final sort a patch always applies to the graph it was made from. */
  lemma DiffApplies(base: Graph, edited: Graph)
    requires UniqueNames(base.ops) && UniqueNames(edited.ops)
    ensures Applied(base, Diff(base, edited)) == Sorted(Patched(base, Diff(base, edited)))
    ensures SameContents(Patched(base, Diff(base, edited)).ops, edited.ops)
  {
    DigestsHold(Dropped(base.ops, edited.ops), base.ops);
    OpsRoundTrip(base.ops, edited.ops);
  }

  lemma SameUses(a: seq<Op>, b: seq<Op>, t: Name)
    requires Contents(a) == Contents(b)
    ensures Uses(a, t) ==> Uses(b, t)
  {
    if Uses(a, t) {
      var o :| o in a && (t in o.inputs || t in o.outputs);
      var c := Content(o);
      assert c in Contents(a) && c.inputs == o.inputs && c.outputs == o.outputs;
      var x :| x in b && Content(x) == c;
      assert c.inputs == x.inputs && c.outputs == x.outputs;
    }
  }

  /** Before sorting, a patch has rebuilt everything but the ops exactly when the edit is expressible. */
  lemma PatchedRest(base: Graph, edited: Graph)
    requires SameContents(Patched(base, Diff(base, edited)).ops, edited.ops)
    ensures var p := Patched(base, Diff(base, edited));
      p == edited.(ops := p.ops) <==> Expressible(base, edited)
  {
    var d := Diff(base, edited);
    var p := Patched(base, d);
    forall t
      ensures Uses(p.ops, t) <==> Uses(edited.ops, t)
    {
      SameUses(p.ops, edited.ops, t);
      SameUses(edited.ops, p.ops, t);
    }
    TensorsRest(base, edited, p);
    AddOnlyRest(base.derivations, edited.derivations);
    AddOnlyRest(base.weightDtypes, edited.weightDtypes);
    assert d.derivations == map[] <==> edited.derivations.Keys <= base.derivations.Keys by {
      if d.derivations == map[] {
        forall k | k in edited.derivations
          ensures k in base.derivations
        {
          assert k !in d.derivations;
        }
      }
    }
    if base.derivations.Keys <= edited.derivations.Keys && !Conflict(base.derivations, edited.derivations) {
      assert d.derivations == map[] <==> edited.derivations == base.derivations;
    }
  }

  lemma AddOnlyRest<K, V>(base: map<K, V>, edited: map<K, V>)
    ensures base + OnlyNew(edited, base) == edited <==> base.Keys <= edited.Keys && !Conflict(base, edited)
  {
    var both := base + OnlyNew(edited, base);
    if both == edited {
      assert base.Keys <= both.Keys;
      assert forall k :: k in base ==> both[k] == base[k];
    }
    if base.Keys <= edited.Keys && !Conflict(base, edited) {
      assert both.Keys == edited.Keys;
    }
  }

  lemma TensorsRest(base: Graph, edited: Graph, p: Graph)
    requires p == Patched(base, Diff(base, edited))
    requires forall t :: Uses(p.ops, t) <==> Uses(edited.ops, t)
    ensures p.tensors == edited.tensors <==>
      !Conflict(base.tensors, edited.tensors) && forall t :: t in base.tensors && t !in edited.tensors ==> !Uses(edited.ops, t)
  {
    if p.tensors == edited.tensors {
      forall t | t in base.tensors && t in edited.tensors
        ensures base.tensors[t] == edited.tensors[t]
      {
        assert t in p.tensors;
      }
      forall t | t in base.tensors && t !in edited.tensors
        ensures !Uses(edited.ops, t)
      {
        assert t !in p.tensors;
      }
    }
    if !Conflict(base.tensors, edited.tensors) && forall t :: t in base.tensors && t !in edited.tensors ==> !Uses(edited.ops, t) {
      assert p.tensors.Keys == edited.tensors.Keys;
    }
  }

  lemma PermutedContents(a: seq<Op>, b: seq<Op>)
    requires multiset(a) == multiset(b)
    ensures Contents(a) == Contents(b)
  {
    assert forall o :: o in a <==> o in multiset(a);
    assert forall o :: o in b <==> o in multiset(b);
  }

  lemma SortedKeepsOps(g: Graph)
    requires UniqueNames(g.ops) && Sorted(g).Ok?
    ensures SameContents(Sorted(g).value.ops, g.ops)
    ensures Sorted(g).value == g.(ops := Sorted(g).value.ops)
  {
    SortedIsInOrder(g);
    PermutedContents(Sorted(g).value.ops, g.ops);
    OrderIsTopological(g);
    var order := OrderOf(DepsOf(g.ops));
    assert UniqueNames(Pick(g.ops, order));
  }

  /** A patch reproduces the edited graph exactly when the edit is expressible. */
  lemma RoundTrip(base: Graph, edited: Graph)
    requires UniqueNames(base.ops) && UniqueNames(edited.ops)
    requires Sorted(edited).Ok?
    ensures Reproduces(Applied(base, Diff(base, edited)), edited) <==> Expressible(base, edited)
  {
    var p := Patched(base, Diff(base, edited));
    DiffApplies(base, edited);
    PatchedRest(base, edited);
    if Expressible(base, edited) {
      SameContentsSortAlike(edited, p);
    }
    if Sorted(p).Ok? {
      SortedKeepsOps(p);
      DigestsCompare(Sorted(p).value.ops, edited.ops);
    }
  }

  /** A patch that removes or adds an op is refused on its own result. */
  lemma ReapplyRefused(base: Graph, edited: Graph)
    requires UniqueNames(base.ops) && UniqueNames(edited.ops)
    requires Applied(base, Diff(base, edited)).Ok?
    requires !SameOps(base.ops, edited.ops)
    ensures var p := Diff(base, edited);
      Applied(Applied(base, p).value, p) == Err(if p.removeOps == {} then Exists else Stale)
  {
    var p := Diff(base, edited);
    var r := Applied(base, p).value;
    DigestsCompare(base.ops, edited.ops);
    DiffApplies(base, edited);
    SortedKeepsOps(Patched(base, p));
    DigestsHold(Dropped(base.ops, edited.ops), base.ops);
    if n :| n in p.removeOps {
      assert n in p.requiresOps;
      RemovedIsGone(base, edited, r.ops, n);
    } else {
      assert p.requiresOps.Keys == {};
      NothingRemoved(base, edited, r.ops);
    }
  }

  lemma RemovedIsGone(base: Graph, edited: Graph, ops: seq<Op>, n: string)
    requires UniqueNames(base.ops)
    requires Contents(ops) == Contents(edited.ops)
    requires n in Digests(Dropped(base.ops, edited.ops))
    ensures !Requirement(ops, n, Digests(Dropped(base.ops, edited.ops))[n])
  {
    var dropped := Dropped(base.ops, edited.ops);
    var digest := Digests(dropped)[n];
    DigestsHold(dropped, dropped);
    var o :| o in dropped && o.name == n && Content(o) == digest;
    assert digest !in Contents(ops);
    assert forall x :: x in ops ==> Content(x) in Contents(ops);
  }

  lemma NothingRemoved(base: Graph, edited: Graph, ops: seq<Op>)
    requires UniqueNames(edited.ops)
    requires Names(Dropped(base.ops, edited.ops)) == {}
    requires Contents(base.ops) != Contents(edited.ops)
    requires Contents(ops) == Contents(edited.ops)
    ensures NameTaken(Filter(ops, (o: Op) => o.name !in Names(Dropped(base.ops, edited.ops))), Diff(base, edited).addOps)
  {
    var added := Diff(base, edited).addOps;
    forall c | c in Contents(base.ops)
      ensures c in Contents(edited.ops)
    {
      var o :| o in base.ops && Content(o) == c;
      assert o in Dropped(base.ops, edited.ops) ==> o.name in Names(Dropped(base.ops, edited.ops));
    }
    var c :| c in Contents(edited.ops) && c !in Contents(base.ops);
    var e :| e in edited.ops && Content(e) == c;
    assert e in Dropped(edited.ops, base.ops);
    var i :| 0 <= i < |Dropped(edited.ops, base.ops)| && Dropped(edited.ops, base.ops)[i] == e;
    assert added[i] == Content(e);
    var x :| x in ops && Content(x) == c;
    assert Content(x).name == x.name && Content(e).name == e.name;
    assert HasName(Filter(ops, (o: Op) => o.name !in Names(Dropped(base.ops, edited.ops))), added[i].name);
  }

  // ---------------------------------------------------------------- when a patch is stale

  /** An op that the edit removed or changed is no longer what it was. */
  ghost predicate Outdated(g: Graph, base: Graph, edited: Graph, o: Op) {
    o in base.ops && !HasAlike(edited.ops, o) && !HasAlike(g.ops, o)
  }

  /** A patch is refused as stale exactly when the graph lacks an op the edit removed or changed, or has
      it with another meaning. */
  lemma StaleIff(g: Graph, base: Graph, edited: Graph)
    requires UniqueNames(base.ops)
    ensures Applied(g, Diff(base, edited)) == Err(Stale) <==> exists o :: Outdated(g, base, edited, o)
  {
    var dropped, required := Dropped(base.ops, edited.ops), Diff(base, edited).requiresOps;
    DigestsHold(dropped, dropped);
    SortedIsNotStale(Patched(g, Diff(base, edited)));
    hide Applied, Diff, Sorted, Alike, Content, UniqueNames;
    assert required == Digests(dropped) by { DiffRequires(base, edited); }
    forall o | Outdated(g, base, edited, o)
      ensures o.name in required && !Requirement(g.ops, o.name, required[o.name])
    {
      OutdatedIsRequired(g, base, edited, o);
    }
    forall n | n in required && !Requirement(g.ops, n, required[n])
      ensures exists o :: Outdated(g, base, edited, o)
    {
      var o :| o in dropped && o.name == n && Content(o) == required[n];
      RequiredIsOutdated(g, base, edited, o);
    }
    StaleMeans(g, Diff(base, edited));
  }

  lemma DiffRequires(base: Graph, edited: Graph)
    ensures Diff(base, edited).requiresOps == Digests(Dropped(base.ops, edited.ops))
  {
  }

  lemma SortedIsNotStale(g: Graph)
    ensures Sorted(g) != Err(Stale)
  {
  }

  lemma StaleMeans(g: Graph, p: Patch)
    requires Sorted(Patched(g, p)) != Err(Stale)
    ensures Applied(g, p) == Err(Stale) <==> exists n :: n in p.requiresOps && !Requirement(g.ops, n, p.requiresOps[n])
  {
    hide Sorted, Patched, Requirement;
  }

  lemma OutdatedIsRequired(g: Graph, base: Graph, edited: Graph, o: Op)
    requires UniqueNames(base.ops) && Outdated(g, base, edited, o)
    ensures var d := Digests(Dropped(base.ops, edited.ops)); o.name in d && !Requirement(g.ops, o.name, d[o.name])
  {
    var dropped := Dropped(base.ops, edited.ops);
    HalfCompared([o], edited.ops);
    HalfCompared([o], g.ops);
    assert Contents([o]) == {Content(o)};
    assert o in dropped;
    DigestsHold(dropped, dropped);
    assert o.name in Names(dropped);
    var x :| x in dropped && x.name == o.name && Content(x) == Digests(dropped)[o.name];
    ByName(base.ops, x, o);
    assert forall y :: y in g.ops ==> Content(y) in Contents(g.ops);
  }

  lemma RequiredIsOutdated(g: Graph, base: Graph, edited: Graph, o: Op)
    requires o in Dropped(base.ops, edited.ops) && !Requirement(g.ops, o.name, Content(o))
    ensures Outdated(g, base, edited, o)
  {
    HalfCompared([o], edited.ops);
    assert Contents([o]) == {Content(o)};
    forall x | x in g.ops
      ensures !Alike(o, x)
    {
      DigestTells(o, x);
    }
  }

  /** The edit adds an op under the name of one that the patch leaves alone. */
  ghost predicate NameClash(g: Graph, base: Graph, edited: Graph, o: Op, x: Op) {
    && o in edited.ops && !HasAlike(base.ops, o) && x in g.ops && x.name == o.name
    && forall b :: b in base.ops && b.name == x.name ==> HasAlike(edited.ops, b)
  }

  ghost predicate TensorClash(g: Graph, base: Graph, edited: Graph, t: Name) {
    t in edited.tensors && t !in base.tensors && t in g.tensors && g.tensors[t] != edited.tensors[t]
  }

  ghost predicate DerivationClash(g: Graph, base: Graph, edited: Graph, k: string) {
    k in edited.derivations && k !in base.derivations && k in g.derivations && g.derivations[k] != edited.derivations[k]
  }

  /** A patch that is not stale is refused for what exists exactly when an op, a tensor or a derived weight
      it adds is there already, tensors and weights with another description. */
  lemma ExistsIff(g: Graph, base: Graph, edited: Graph)
    requires UniqueNames(base.ops) && UniqueNames(edited.ops)
    ensures Applied(g, Diff(base, edited)) == Err(Exists) <==>
      && (forall o :: !Outdated(g, base, edited, o))
      && ((exists o, x :: NameClash(g, base, edited, o, x)) || (exists t :: TensorClash(g, base, edited, t)) || (exists k :: DerivationClash(g, base, edited, k)))
  {
    var p := Diff(base, edited);
    StaleIff(g, base, edited);
    RefusedAs(Patched(g, p));
    TakenIff(g, base, edited);
    hide Outdated, NameClash, Sorted, Patched, NameTaken, Requirement;
    assert Conflict(p.addTensors, g.tensors) <==> exists t :: TensorClash(g, base, edited, t) by { TensorsClash(g, base, edited); }
    assert Conflict(p.derivations, g.derivations) <==> exists k :: DerivationClash(g, base, edited, k) by { DerivationsClash(g, base, edited); }
    hide Conflict, Diff;
    if Applied(g, p) == Err(Stale) { assert !(Applied(g, p) == Err(Exists)); }
  }

  lemma TensorsClash(g: Graph, base: Graph, edited: Graph)
    ensures Conflict(Diff(base, edited).addTensors, g.tensors) <==> exists t :: TensorClash(g, base, edited, t)
  {
    var added := OnlyNew(edited.tensors, base.tensors);
    assert Diff(base, edited).addTensors == added;
    if t :| TensorClash(g, base, edited, t) { assert t in added && t in g.tensors && added[t] != g.tensors[t]; }
    if Conflict(added, g.tensors) {
      var t :| t in added && t in g.tensors && added[t] != g.tensors[t];
      assert TensorClash(g, base, edited, t);
    }
  }

  lemma DerivationsClash(g: Graph, base: Graph, edited: Graph)
    ensures Conflict(Diff(base, edited).derivations, g.derivations) <==> exists k :: DerivationClash(g, base, edited, k)
  {
    var added := OnlyNew(edited.derivations, base.derivations);
    assert Diff(base, edited).derivations == added;
    if k :| DerivationClash(g, base, edited, k) { assert k in added && k in g.derivations && added[k] != g.derivations[k]; }
    if Conflict(added, g.derivations) {
      var k :| k in added && k in g.derivations && added[k] != g.derivations[k];
      assert DerivationClash(g, base, edited, k);
    }
  }

  /** What the patch leaves of the graph. */
  ghost function Left(g: Graph, base: Graph, edited: Graph): seq<Op> {
    Filter(g.ops, (o: Op) => o.name !in Diff(base, edited).removeOps)
  }

  lemma LeftIs(g: Graph, base: Graph, edited: Graph, x: Op)
    ensures x in Left(g, base, edited) <==> x in g.ops && forall b :: b in base.ops && b.name == x.name ==> HasAlike(edited.ops, b)
  {
    var dropped := Dropped(base.ops, edited.ops);
    assert Diff(base, edited).removeOps == Names(dropped);
    forall b | b in base.ops
      ensures b in dropped <==> !HasAlike(edited.ops, b)
    {
      DroppedIs(base.ops, edited.ops, b);
    }
    hide HasAlike, Dropped;
    if x.name in Names(dropped) {
      var b :| b in dropped && b.name == x.name;
      assert b in base.ops by { DroppedFrom(base.ops, edited.ops, b); }
    }
  }

  lemma DroppedIs(base: seq<Op>, edited: seq<Op>, o: Op)
    requires o in base
    ensures o in Dropped(base, edited) <==> !HasAlike(edited, o)
  {
    HalfCompared([o], edited);
    assert Contents([o]) == {Content(o)};
  }

  lemma DroppedFrom(base: seq<Op>, edited: seq<Op>, o: Op)
    requires o in Dropped(base, edited)
    ensures o in base
  {
  }

  lemma TakenIff(g: Graph, base: Graph, edited: Graph)
    requires UniqueNames(edited.ops)
    ensures NameTaken(Left(g, base, edited), Diff(base, edited).addOps) <==> exists o, x :: NameClash(g, base, edited, o, x)
  {
    var left, news, added := Left(g, base, edited), Dropped(edited.ops, base.ops), Diff(base, edited).addOps;
    assert added == Map(news, Content);
    assert forall i :: 0 <= i < |added| ==> added[i].name == news[i].name;
    NewNamesDiffer(base, edited);
    hide Left, Dropped, Diff, HasAlike, UniqueNames;
    if o, x :| NameClash(g, base, edited, o, x) {
      DroppedIs(edited.ops, base.ops, o);
      LeftIs(g, base, edited, x);
      var i :| 0 <= i < |news| && news[i] == o;
      assert HasName(left, added[i].name);
    }
    if NameTaken(left, added) {
      var i :| 0 <= i < |added| && (HasName(left, added[i].name) || HasName(added[..i], added[i].name));
      assert !HasName(added[..i], added[i].name);
      var x :| x in left && x.name == added[i].name;
      LeftIs(g, base, edited, x);
      var o := news[i];
      assert o in news;
      DroppedFrom(edited.ops, base.ops, o);
      DroppedIs(edited.ops, base.ops, o);
      assert NameClash(g, base, edited, o, x);
    }
  }

  lemma NewNamesDiffer(base: Graph, edited: Graph)
    requires UniqueNames(edited.ops)
    ensures var added := Diff(base, edited).addOps; forall i :: 0 <= i < |added| ==> !HasName(added[..i], added[i].name)
  {
    var news, added := Dropped(edited.ops, base.ops), Diff(base, edited).addOps;
    FilterKeepsNames(edited.ops, (o: Op) => !HasContent(base.ops, o));
    assert forall i :: 0 <= i < |added| ==> added[i].name == news[i].name;
    assert forall i, j :: 0 <= j < i < |added| ==> added[j].name != added[i].name;
  }

  // ---------------------------------------------------------------- what the patched graph computes

  ghost predicate AllContained(ops: seq<Op>) {
    forall o :: o in ops ==> SelfContained(o)
  }

  /** What an op writes stays until the end of the run. */
  lemma ValueStays(k: Kernels, ops: seq<Op>, env: Env, i: nat, t: Name)
    requires SingleMaker(ops) && i < |ops| && t in ops[i].outputs
    ensures Read(Run(k, ops, env), t) == Read(Exec(k, ops[i], Run(k, ops[..i], env)), t)
  {
    assert ops == (ops[..i] + [ops[i]]) + ops[i + 1..];
    RunAppend(k, ops[..i] + [ops[i]], ops[i + 1..], env);
    RunAppend(k, ops[..i], [ops[i]], env);
    RunOne(k, ops[i], Run(k, ops[..i], env));
    forall o | o in ops[i + 1..]
      ensures t !in o.outputs
    {
      var j :| i < j < |ops| && ops[j] == o;
      NotBoth(ops, i, j, t);
    }
    RunFrame(k, ops[i + 1..], Exec(k, ops[i], Run(k, ops[..i], env)), t);
  }

  lemma NotBoth(ops: seq<Op>, i: nat, j: nat, t: Name)
    requires SingleMaker(ops) && i < |ops| && j < |ops| && i != j && t in ops[i].outputs
    ensures t !in ops[j].outputs
  {
    assert Maker(ops, i, t);
    assert t in ops[j].outputs ==> Maker(ops, j, t);
  }

  /** What an op reads when its turn comes: what another op makes, or what was given. */
  lemma InputAtTurn(k: Kernels, ops: seq<Op>, env: Env, i: nat, t: Name)
    requires SingleMaker(ops) && InOrder(ops) && i < |ops| && t in ops[i].inputs
    ensures forall j: nat :: j < |ops| && j != i && t in ops[j].outputs ==> j < i && Read(Run(k, ops[..i], env), t) == Read(Run(k, ops, env), t)
    ensures (forall j: nat :: j < |ops| && j != i ==> t !in ops[j].outputs) ==> Read(Run(k, ops[..i], env), t) == Read(env, t)
  {
    forall j: nat | j < |ops| && j != i && t in ops[j].outputs
      ensures j < i && Read(Run(k, ops[..i], env), t) == Read(Run(k, ops, env), t)
    {
      assert ReadsFrom(ops, i, j);
      assert ops == ops[..i] + ops[i..];
      RunAppend(k, ops[..i], ops[i..], env);
      forall o | o in ops[i..]
        ensures t !in o.outputs
      {
        var l :| i <= l < |ops| && ops[l] == o;
        NotBoth(ops, j, l, t);
      }
      RunFrame(k, ops[i..], Run(k, ops[..i], env), t);
    }
    if forall j: nat :: j < |ops| && j != i ==> t !in ops[j].outputs {
      forall o | o in ops[..i]
        ensures t !in o.outputs
      {
        var l :| 0 <= l < i && ops[l] == o;
      }
      RunFrame(k, ops[..i], env, t);
    }
  }

  /** The other list's op of the same name. */
  lemma AlikeAt(a: seq<Op>, b: seq<Op>, i: nat) returns (j: nat)
    requires SameOps(a, b) && i < |a|
    ensures j < |b| && Alike(a[i], b[j])
  {
    assert HasAlike(b, a[i]);
    var x :| x in b && Alike(a[i], x);
    j :| j < |b| && b[j] == x;
  }

  lemma SamePlace(a: seq<Op>, i: nat, j: nat)
    requires UniqueNames(a) && i < |a| && j < |a| && a[i].name == a[j].name
    ensures i == j
  {
  }

  lemma {:induction false} RunsAgreeAt(k: Kernels, a: seq<Op>, b: seq<Op>, env: Env, i: nat, j: nat, t: Name)
    requires SameOps(a, b) && SingleMaker(a) && SingleMaker(b) && InOrder(a) && InOrder(b) && AllContained(a)
    requires i < |a| && j < |b| && Alike(a[i], b[j]) && t in a[i].outputs
    ensures Read(Run(k, a, env), t) == Read(Run(k, b, env), t)
    decreases i
  {
    var e1, e2 := Run(k, a[..i], env), Run(k, b[..j], env);
    forall x | x in a[i].inputs
      ensures Read(e1, x) == Read(e2, x)
    {
      InputAtTurn(k, a, env, i, x);
      InputAtTurn(k, b, env, j, x);
      if p: nat :| p < |a| && p != i && x in a[p].outputs {
        var q := AlikeAt(a, b, p);
        if q == j {
          SamePlace(a, p, i);
        }
        RunsAgreeAt(k, a, b, env, p, q, x);
      } else if q: nat :| q < |b| && q != j && x in b[q].outputs {
        var p := AlikeAt(b, a, q);
        if p == i {
          SamePlace(b, q, j);
        }
        assert false;
      }
    }
    ValueStays(k, a, env, i, t);
    ValueStays(k, b, env, j, t);
    assert SelfContained(a[i]);
    ExecAgrees(k, a[i], e1, e2);
    ExecAlike(k, a[i], b[j], e2);
  }

  lemma ExecAlike(k: Kernels, o: Op, n: Op, e: Env)
    requires Alike(o, n)
    ensures Exec(k, o, e) == Exec(k, n, e)
  {
  }

  /** Graphs with the same ops compute the same, in whatever order each was sorted. */
  lemma SameOpsRunAlike(k: Kernels, a: seq<Op>, b: seq<Op>, env: Env, t: Name)
    requires SameOps(a, b) && SingleMaker(a) && SingleMaker(b) && InOrder(a) && InOrder(b) && AllContained(a)
    ensures Read(Run(k, a, env), t) == Read(Run(k, b, env), t)
  {
    hide Run, SelfContained, InOrder, SingleMaker, UniqueNames;
    if i: nat :| i < |a| && t in a[i].outputs {
      var j := AlikeAt(a, b, i);
      RunsAgreeAt(k, a, b, env, i, j, t);
    } else {
      forall o | o in b
        ensures t !in o.outputs
      {
        var j: nat :| j < |b| && b[j] == o;
        var i := AlikeAt(b, a, j);
      }
      forall o | o in a
        ensures t !in o.outputs
      {
        var i: nat :| i < |a| && a[i] == o;
      }
      RunFrame(k, a, env, t);
      RunFrame(k, b, env, t);
    }
  }

  /** Applying the patch of an edit computes what the edited graph computes: for all kernels and inputs
      every tensor has the same value, whether or not patches can express the rest of the edit. */
  lemma PatchedComputesTheSame(base: Graph, edited: Graph, k: Kernels, env: Env, t: Name)
    requires UniqueNames(base.ops) && UniqueNames(edited.ops) && AllContained(edited.ops)
    requires Sorted(edited).Ok? && Applied(base, Diff(base, edited)).Ok?
    ensures Read(Run(k, Applied(base, Diff(base, edited)).value.ops, env), t) == Read(Run(k, Sorted(edited).value.ops, env), t)
  {
    var p := Patched(base, Diff(base, edited));
    DiffApplies(base, edited);
    SortedIsInOrder(p);
    SortedIsInOrder(edited);
    SortedKeepsOps(p);
    SortedKeepsOps(edited);
    var a, b := Sorted(edited).value.ops, Sorted(p).value.ops;
    DigestsCompare(a, b);
    assert AllContained(a) by {
      assert forall o :: o in a <==> o in multiset(a);
      assert forall o :: o in edited.ops <==> o in multiset(edited.ops);
      hide SelfContained;
    }
    hide Run, SelfContained, Sorted, Diff, Applied, Patched;
    SameOpsRunAlike(k, a, b, env, t);
  }

  // ---------------------------------------------------------------- the editor

  datatype Edit =
    | AddTensor(name: Name, meta: TensorMeta)
    | AddOp(op: Op)
    | RemoveOps(names: set<string>)
    | Rewire(old_: Name, new_: Name, only: Option<set<string>>)
    | Derive(key: string, expr: string, dtype: Option<string>)

  /** The edits that raise, given the keys of the base weights. */
  predicate Refused(g: Graph, weights: set<string>, e: Edit) {
    match e
    case AddTensor(name, _) => name in g.tensors
    case AddOp(op) => HasName(g.ops, op.name)
    case RemoveOps(names) => exists n :: n in names && !HasName(g.ops, n)
    case Rewire(_, _, _) => false
    case Derive(key, _, _) => key in g.derivations || key in weights || !("d." <= key)
  }

  function Renamed(ts: seq<Name>, old_: Name, new_: Name): seq<Name> {
    Map(ts, (t: Name) => if t == old_ then new_ else t)
  }

  function Rewired(o: Op, old_: Name, new_: Name): Op {
    o.(inputs := Renamed(o.inputs, old_, new_),
       subOps := Map(o.subOps, (s: Op) => s.(inputs := Renamed(s.inputs, old_, new_))))
  }

  predicate Selected(o: Op, only: Option<set<string>>) {
    only.Some? ==> o.name in only.value
  }

  function RewireAll(ops: seq<Op>, old_: Name, new_: Name, only: Option<set<string>>): seq<Op> {
    Map(ops, (o: Op) => if Selected(o, only) then Rewired(o, old_, new_) else o)
  }

  function Occurrences(ts: seq<Name>, t: Name): nat {
    multiset(ts)[t]
  }

  function SubOccurrences(subs: seq<Op>, t: Name): nat {
    if subs == [] then 0 else SubOccurrences(subs[..|subs| - 1], t) + Occurrences(subs[|subs| - 1].inputs, t)
  }

  function AllOccurrences(ops: seq<Op>, t: Name, only: Option<set<string>>): nat {
    if ops == [] then 0
    else
      var o := ops[|ops| - 1];
      AllOccurrences(ops[..|ops| - 1], t, only) +
      if Selected(o, only) then Occurrences(o.inputs, t) + SubOccurrences(o.subOps, t) else 0
  }

  function Step(g: Graph, weights: set<string>, e: Edit): Graph {
    if Refused(g, weights, e) then g else
    match e
    case AddTensor(name, meta) => g.(tensors := g.tensors[name := meta])
    case AddOp(op) => g.(ops := g.ops + [op])
    case RemoveOps(names) => g.(ops := Filter(g.ops, (o: Op) => o.name !in names))
    case Rewire(old_, new_, only) => g.(ops := RewireAll(g.ops, old_, new_, only))
    case Derive(key, expr, dtype) =>
      g.(derivations := g.derivations[key := expr],
         weightDtypes := if dtype.Some? then g.weightDtypes[key := dtype.value] else g.weightDtypes)
  }

  method RenameIn(ts: seq<Name>, old_: Name, new_: Name) returns (r: seq<Name>, n: nat)
    ensures r == Renamed(ts, old_, new_)
    ensures n == Occurrences(ts, old_)
  {
    r, n := ts, 0;
    for i := 0 to |ts|
      invariant |r| == |ts| && n == multiset(ts[..i])[old_]
      invariant forall k :: 0 <= k < |ts| ==> r[k] == if k < i && ts[k] == old_ then new_ else ts[k]
    {
      assert ts[..i + 1] == ts[..i] + [ts[i]];
      if r[i] == old_ {
        r := r[i := new_];
        n := n + 1;
      }
    }
    assert ts[..|ts|] == ts;
  }

  method RewireSubs(subs: seq<Op>, old_: Name, new_: Name) returns (r: seq<Op>, n: nat)
    ensures r == Map(subs, (s: Op) => s.(inputs := Renamed(s.inputs, old_, new_)))
    ensures n == SubOccurrences(subs, old_)
  {
    r, n := [], 0;
    for i := 0 to |subs|
      invariant |r| == i && n == SubOccurrences(subs[..i], old_)
      invariant forall k :: 0 <= k < i ==> r[k] == subs[k].(inputs := Renamed(subs[k].inputs, old_, new_))
    {
      assert subs[..i + 1][..i] == subs[..i];
      var ins, m := RenameIn(subs[i].inputs, old_, new_);
      r, n := r + [subs[i].(inputs := ins)], n + m;
    }
    assert subs[..|subs|] == subs;
  }

  method RewireOp(o: Op, old_: Name, new_: Name) returns (r: Op, n: nat)
    ensures r == Rewired(o, old_, new_)
    ensures n == Occurrences(o.inputs, old_) + SubOccurrences(o.subOps, old_)
  {
    var ins, a := RenameIn(o.inputs, old_, new_);
    var subs, b := RewireSubs(o.subOps, old_, new_);
    r, n := o.(inputs := ins, subOps := subs), a + b;
  }

  method RewireOps(was: seq<Op>, old_: Name, new_: Name, only: Option<set<string>>) returns (ops: seq<Op>, n: nat)
    ensures ops == RewireAll(was, old_, new_, only)
    ensures n == AllOccurrences(was, old_, only)
  {
    hide *;
    ops, n := was, 0;
    NoOccurrences(old_, only);
    for i := 0 to |ops|
      invariant |ops| == |was| && n == AllOccurrences(was[..i], old_, only)
      invariant forall k :: 0 <= k < |was| ==>
        ops[k] == if k < i && Selected(was[k], only) then Rewired(was[k], old_, new_) else was[k]
    {
      OneMoreCounted(was, i, old_, only);
      if Selected(ops[i], only) {
        var o, m := RewireOp(ops[i], old_, new_);
        ops := ops[i := o];
        n := n + m;
      }
    }
    assert was[..|was|] == was;
    IsRewireAll(was, ops, old_, new_, only);
  }

  lemma NoOccurrences(t: Name, only: Option<set<string>>)
    ensures AllOccurrences([], t, only) == 0
  {
  }

  lemma OneMoreCounted(ops: seq<Op>, i: nat, t: Name, only: Option<set<string>>)
    requires i < |ops|
    ensures AllOccurrences(ops[..i + 1], t, only) ==
      AllOccurrences(ops[..i], t, only) + if Selected(ops[i], only) then Occurrences(ops[i].inputs, t) + SubOccurrences(ops[i].subOps, t) else 0
  {
    assert ops[..i + 1][..i] == ops[..i];
    hide Occurrences, SubOccurrences, Selected;
  }

  lemma IsRewireAll(was: seq<Op>, ops: seq<Op>, old_: Name, new_: Name, only: Option<set<string>>)
    requires |ops| == |was| && forall k :: 0 <= k < |was| ==> ops[k] == if Selected(was[k], only) then Rewired(was[k], old_, new_) else was[k]
    ensures ops == RewireAll(was, old_, new_, only)
  {
    hide Selected, Rewired;
  }

  /** Some selected op, or a stage of it, reads the tensor. */
  ghost predicate IsRead(ops: seq<Op>, t: Name, only: Option<set<string>>) {
    exists o :: o in ops && (only == None || o.name in only.value) && (t in o.inputs || exists s :: s in o.subOps && t in s.inputs)
  }

  lemma {:induction false} SubReads(subs: seq<Op>, t: Name)
    ensures SubOccurrences(subs, t) == 0 <==> forall s :: s in subs ==> t !in s.inputs
  {
    if subs != [] {
      var n := |subs| - 1;
      SubReads(subs[..n], t);
      assert subs == subs[..n] + [subs[n]];
    }
  }

  /** Nothing is counted exactly when nothing reads the old name. */
  lemma {:induction false} CountsReads(ops: seq<Op>, t: Name, only: Option<set<string>>)
    ensures AllOccurrences(ops, t, only) == 0 <==> !IsRead(ops, t, only)
  {
    if ops != [] {
      var n := |ops| - 1;
      var init, o := ops[..n], ops[n];
      CountsReads(init, t, only);
      SubReads(o.subOps, t);
      assert ops == init + [o];
      if AllOccurrences(ops, t, only) == 0 {
        assert !IsRead(ops, t, only);
      } else if IsRead(init, t, only) {
        var x :| x in init && (only == None || x.name in only.value) && (t in x.inputs || exists s :: s in x.subOps && t in s.inputs);
        assert x in ops;
      } else {
        assert o in ops;
      }
    }
  }

  ghost predicate ReadsRenamed(was: seq<Name>, now: seq<Name>, old_: Name, new_: Name) {
    |now| == |was| && forall k :: 0 <= k < |was| ==> now[k] == if was[k] == old_ then new_ else was[k]
  }

  /** Rewiring renames the reads of the old name in the selected ops and in their stages, and nothing else. */
  lemma RewiresExactly(ops: seq<Op>, old_: Name, new_: Name, only: Option<set<string>>, i: nat)
    requires i < |ops|
    ensures |RewireAll(ops, old_, new_, only)| == |ops|
    ensures var was, now := ops[i], RewireAll(ops, old_, new_, only)[i];
      if only == None || was.name in only.value then
        && now == was.(inputs := now.inputs, subOps := now.subOps) && ReadsRenamed(was.inputs, now.inputs, old_, new_)
        && |now.subOps| == |was.subOps|
        && forall j :: 0 <= j < |was.subOps| ==>
             now.subOps[j] == was.subOps[j].(inputs := now.subOps[j].inputs) && ReadsRenamed(was.subOps[j].inputs, now.subOps[j].inputs, old_, new_)
      else now == was
  {
  }

  /** A rewrite in progress. It works on its own copy of the graph. */
  class Editor {
    var g: Graph
    const g0: Graph
    const weights: set<string>

    constructor (graph: Graph, weights: set<string>)
      ensures g == graph && g0 == graph && this.weights == weights
    {
      g, g0, this.weights := graph, graph, weights;
    }

    method AddTensor(name: Name, meta: TensorMeta) returns (ok: bool)
      modifies this
      ensures ok <==> !Refused(old(g), weights, Edit.AddTensor(name, meta))
      ensures g == Step(old(g), weights, Edit.AddTensor(name, meta))
    {
      if name in g.tensors { return false; }
      g := g.(tensors := g.tensors[name := meta]);
      return true;
    }

    method AddOp(op: Op) returns (ok: bool)
      modifies this
      ensures ok <==> !Refused(old(g), weights, Edit.AddOp(op))
      ensures g == Step(old(g), weights, Edit.AddOp(op))
    {
      for i := 0 to |g.ops|
        invariant g == old(g)
        invariant !HasName(g.ops[..i], op.name)
      {
        if g.ops[i].name == op.name {
          assert g.ops[i] in g.ops;
          return false;
        }
        assert g.ops[..i + 1] == g.ops[..i] + [g.ops[i]];
      }
      assert g.ops[..|g.ops|] == g.ops;
      g := g.(ops := g.ops + [op]);
      return true;
    }

    method RemoveOps(names: set<string>) returns (ok: bool)
      modifies this
      ensures ok <==> !Refused(old(g), weights, Edit.RemoveOps(names))
      ensures g == Step(old(g), weights, Edit.RemoveOps(names))
    {
      var missing := names - Names(g.ops);
      if missing != {} {
        var n :| n in missing;
        assert !HasName(g.ops, n);
        return false;
      }
      forall n | n in names
        ensures HasName(g.ops, n)
      {
        assert n !in missing;
      }
      g := g.(ops := Filter(g.ops, (o: Op) => o.name !in names));
      return true;
    }

    /** Returns how many reads changed. */
    method Rewire(old_: Name, new_: Name, only: Option<set<string>>) returns (n: nat)
      modifies this
      ensures n == AllOccurrences(old(g).ops, old_, only)
      ensures g == Step(old(g), weights, Edit.Rewire(old_, new_, only))
    {
      var ops;
      ops, n := RewireOps(g.ops, old_, new_, only);
      g := g.(ops := ops);
    }

    method Derive(key: string, expr: string, dtype: Option<string>) returns (ok: bool)
      modifies this
      ensures ok <==> !Refused(old(g), weights, Edit.Derive(key, expr, dtype))
      ensures g == Step(old(g), weights, Edit.Derive(key, expr, dtype))
    {
      if key in g.derivations || key in weights || !("d." <= key) { return false; }
      g := g.(derivations := g.derivations[key := expr]);
      if dtype.Some? { g := g.(weightDtypes := g.weightDtypes[key := dtype.value]); }
      return true;
    }

    /** Sorts in place; a refused sort leaves the graph as it was. */
    method Result() returns (r: Result<Graph, PatchError>)
      modifies this
      ensures r == Sorted(old(g))
      ensures g == if r.Ok? then r.value else old(g)
    {
      r := Toposort.Toposort(g);
      if r.Ok? { g := r.value; }
    }
  }

  // ---------------------------------------------------------------- runs of the editor

  function Steps(g: Graph, weights: set<string>, es: seq<Edit>): Graph {
    if es == [] then g else Step(Steps(g, weights, es[..|es| - 1]), weights, es[|es| - 1])
  }

  ghost predicate Extends<K, V>(base: map<K, V>, m: map<K, V>) {
    base.Keys <= m.Keys && !Conflict(base, m)
  }

  /** What every run of the editor keeps. */
  ghost predicate GrewFrom(base: Graph, weights: set<string>, g: Graph) {
    && UniqueNames(g.ops)
    && g.inputs == base.inputs && g.outputs == base.outputs
    && Extends(base.tensors, g.tensors)
    && Extends(base.derivations, g.derivations)
    && Extends(base.weightDtypes, g.weightDtypes)
    && (forall k :: k in g.weightDtypes ==> k in weights || k in g.derivations)
    && (g.weightDtypes == base.weightDtypes || g.derivations != base.derivations)
  }

  lemma StepKeepsNames(g: Graph, weights: set<string>, e: Edit)
    requires UniqueNames(g.ops)
    ensures UniqueNames(Step(g, weights, e).ops)
  {
    if !Refused(g, weights, e) {
      match e
      case AddOp(op) =>
        forall i | 0 <= i < |g.ops|
          ensures g.ops[i].name != op.name
        {
          assert g.ops[i] in g.ops;
        }
      case RemoveOps(names) => FilterKeepsNames(g.ops, (o: Op) => o.name !in names);
      case _ =>
    }
  }

  lemma StepGrows(base: Graph, weights: set<string>, g: Graph, e: Edit)
    requires GrewFrom(base, weights, g)
    ensures GrewFrom(base, weights, Step(g, weights, e))
  {
    StepKeepsNames(g, weights, e);
    var h := Step(g, weights, e);
    if e.Derive? && !Refused(g, weights, e) {
      assert e.key in h.derivations && e.key !in base.derivations;
    }
  }

  lemma {:induction false} StepsGrow(base: Graph, weights: set<string>, es: seq<Edit>)
    requires UniqueNames(base.ops)
    requires forall k :: k in base.weightDtypes ==> k in weights || k in base.derivations
    ensures GrewFrom(base, weights, Steps(base, weights, es))
    decreases |es|
  {
    if es != [] {
      StepsGrow(base, weights, es[..|es| - 1]);
      StepGrows(base, weights, Steps(base, weights, es[..|es| - 1]), es[|es| - 1]);
    }
  }

  /** Whatever the editor does, the patch of the sorted result reproduces it. */
  lemma EditorRoundTrip(base: Graph, weights: set<string>, es: seq<Edit>)
    requires UniqueNames(base.ops)
    requires forall k :: k in base.weightDtypes ==> k in weights || k in base.derivations
    requires Sorted(Steps(base, weights, es)).Ok?
    ensures var edited := Sorted(Steps(base, weights, es)).value;
      Reproduces(Applied(base, Diff(base, edited)), edited)
  {
    var g := Steps(base, weights, es);
    StepsGrow(base, weights, es);
    SortedKeepsOps(g);
    SortIsIdempotent(g);
    RoundTrip(base, Sorted(g).value);
  }

  // ---------------------------------------------------------------- an edit that patches do not carry

  /** One op that reads one given tensor. */
  function OneRead(size: int): Graph {
    Graph([Op("r", Body("relu", map[], map[], map[]), ["x"], ["y"], [], [], None, [], None, Original, map[])],
          map["x" := TensorMeta([size], "f32", None, "")], ["x"], ["y"], map[], map[])
  }

  lemma OneReadSorts(size: int)
    ensures Sorted(OneRead(size)).Ok? && UniqueNames(OneRead(size).ops)
  {
    var g := OneRead(size);
    assert Makes(g.ops[0]) == ["y"];
    assert !HasOrphan(g);
    var deps := AsDeps(DepsOf(g.ops));
    assert forall a, b :: !Edge(deps, a, b);
    RankedIsAcyclic(deps, (n: int) => n);
  }

  /** The shape of a registered tensor was changed: the patch is empty of it, and applying it gives
      something else. */
  lemma ChangedTensorIsLost()
    ensures var base, edited := OneRead(1), OneRead(2);
      Sorted(edited).Ok? && !Reproduces(Applied(base, Diff(base, edited)), edited)
  {
    var base, edited := OneRead(1), OneRead(2);
    OneReadSorts(1);
    OneReadSorts(2);
    assert base.tensors["x"].shape[0] == 1 && edited.tensors["x"].shape[0] == 2;
    assert "x" in base.tensors && "x" in edited.tensors && base.tensors["x"] != edited.tensors["x"];
    hide Sorted, Applied, Diff, Reproduces, UniqueNames;
    RoundTrip(base, edited);
  }
}
