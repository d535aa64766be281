/** The auto-cast pass (pipeline/extract_graph_export.py, insert_casts): where an op of one
    precision reads a tensor of the other, a cast op is spliced in before it, shared by all
    later readers that want the same conversion.

    One run leaves every original op well typed, inserts one cast per mismatched (tensor,
    dtype) pair ahead of all its users, and otherwise keeps the list and its meaning. A second
    run is harmless exactly when the first had nothing to do. */
module Casts {
  import opened Ir
  import opened Seqs
  import opened Shapes

  type Metas = map<Name, TensorMeta>

  function ConsumerDtype(o: Op): string {
    var p := if "precision" in o.body.attrs then o.body.attrs["precision"]
             else if EndsWith(o.body.kind, "_f16") then "fp16" else "int8";
    if p == "fp16" then "f16" else "i8"
  }

  predicate IsDst(d: string) { d == "i8" || d == "f16" }

  predicate EndsWith(s: string, suffix: string) {
    |suffix| <= |s| && s[|s| - |suffix|..] == suffix
  }

  /** Only the i8 / f16 boundary is bridged. */
  predicate Mismatch(metas: Metas, t: Name, dst: string) {
    t in metas && ((metas[t].dtype == "i8" && dst == "f16") || (metas[t].dtype == "f16" && dst == "i8"))
  }

  function CastName(t: Name, dst: string): Name { t + "__cast_" + dst }

  function MetaOf(metas: Metas, t: Name): TensorMeta {
    if t in metas then metas[t] else TensorMeta([], "i8", None, "")
  }

  function CastOp(metas: Metas, scales: map<Name, real>, t: Name, dst: string): Op {
    Op(CastName(t, dst),
       Body(if MetaOf(metas, t).dtype == "i8" && dst == "f16" then "cast_i8_to_f16" else "cast_f16_to_i8",
            map["n" := Numel(MetaOf(metas, t).shape)],
            map["scale" := if t in scales then scales[t] else 0.00000001, "zero_point" := 0.0],
            map["precision" := if dst == "i8" then "int8" else "fp16"]),
       [t], [CastName(t, dst)], [], [], None, [], None, Original, map[])
  }

  function CastMeta(metas: Metas, t: Name, dst: string): TensorMeta {
    TensorMeta(MetaOf(metas, t).shape, dst, None, "")
  }

  function Retype(metas: Metas, ts: seq<Name>, dst: string): (r: seq<Name>)
    ensures |r| == |ts| && forall i :: 0 <= i < |ts| ==> r[i] == if Mismatch(metas, ts[i], dst) then CastName(ts[i], dst) else ts[i]
  {
    seq(|ts|, i requires 0 <= i < |ts| => if Mismatch(metas, ts[i], dst) then CastName(ts[i], dst) else ts[i])
  }

  function Retyped(metas: Metas, o: Op): Op {
    o.(inputs := Retype(metas, o.inputs, ConsumerDtype(o)))
  }

  // ---------------------------------------------------------------- the new list, item by item

  datatype Item = Cast(t: Name, dst: string) | Orig(i: nat, op: Op)

  type Pairs = set<(Name, string)>

  function NewCasts(metas: Metas, ts: seq<Name>, dst: string, done: Pairs): seq<Item> {
    if ts == [] then []
    else if Mismatch(metas, ts[|ts| - 1], dst) && (ts[|ts| - 1], dst) !in done + Asked(metas, ts[..|ts| - 1], dst) then
      NewCasts(metas, ts[..|ts| - 1], dst, done) + [Cast(ts[|ts| - 1], dst)]
    else NewCasts(metas, ts[..|ts| - 1], dst, done)
  }

  function Asked(metas: Metas, ts: seq<Name>, dst: string): Pairs {
    set t | t in ts && Mismatch(metas, t, dst) :: (t, dst)
  }

  function AskedBy(metas: Metas, o: Op): Pairs {
    Asked(metas, o.inputs, ConsumerDtype(o))
  }

  /** The pairs asked for by the first n ops. */
  function AskedBefore(metas: Metas, ops: seq<Op>, n: nat): Pairs
    requires n <= |ops|
  {
    if n == 0 then {} else AskedBefore(metas, ops, n - 1) + AskedBy(metas, ops[n - 1])
  }

  function Items(metas: Metas, ops: seq<Op>, n: nat): seq<Item>
    requires n <= |ops|
  {
    if n == 0 then []
    else
      Items(metas, ops, n - 1) +
      NewCasts(metas, ops[n - 1].inputs, ConsumerDtype(ops[n - 1]), AskedBefore(metas, ops, n - 1)) +
      [Orig(n - 1, ops[n - 1])]
  }

  function Emit(metas: Metas, scales: map<Name, real>, it: Item): Op {
    match it
    case Cast(t, dst) => CastOp(metas, scales, t, dst)
    case Orig(_, o) => Retyped(metas, o)
  }

  function EmitAll(metas: Metas, scales: map<Name, real>, its: seq<Item>): (r: seq<Op>)
    ensures |r| == |its| && forall k :: 0 <= k < |its| ==> r[k] == Emit(metas, scales, its[k])
  {
    seq(|its|, k requires 0 <= k < |its| => Emit(metas, scales, its[k]))
  }

  lemma AppendDistinct<T>(a: seq<T>, b: seq<T>)
    requires Distinct(a) && Distinct(b) && forall x :: x in a ==> x !in b
    ensures Distinct(a + b)
  {
    forall i, j | 0 <= i < j < |a + b|
      ensures (a + b)[i] != (a + b)[j]
    {
      if i < |a| <= j { assert a[i] in a && b[j - |a|] in b; }
    }
  }

  /** The casts made for op n itself. */
  function CastsAt(metas: Metas, ops: seq<Op>, n: nat): seq<Item>
    requires n < |ops|
  {
    NewCasts(metas, ops[n].inputs, ConsumerDtype(ops[n]), AskedBefore(metas, ops, n))
  }

  lemma ItemsStep(metas: Metas, ops: seq<Op>, n: nat)
    requires n < |ops|
    ensures Items(metas, ops, n + 1) == Items(metas, ops, n) + CastsAt(metas, ops, n) + [Orig(n, ops[n])]
    ensures AskedBefore(metas, ops, n + 1) == AskedBefore(metas, ops, n) + AskedBy(metas, ops[n])
  {
    hide NewCasts, ConsumerDtype, AskedBy;
  }

  lemma {:induction false} NewCastsExactly(metas: Metas, ts: seq<Name>, dst: string, done: Pairs)
    ensures var c := NewCasts(metas, ts, dst, done);
      && (forall it :: it in c <==> it.Cast? && it.dst == dst && (it.t, dst) in Asked(metas, ts, dst) - done)
      && Distinct(c)
  {
    if ts != [] {
      var init := ts[..|ts| - 1];
      NewCastsExactly(metas, init, dst, done);
      assert ts == init + [ts[|ts| - 1]];
      assert Asked(metas, ts, dst) == Asked(metas, init, dst) +
        if Mismatch(metas, ts[|ts| - 1], dst) then {(ts[|ts| - 1], dst)} else {};
      AppendDistinct(NewCasts(metas, init, dst, done), if NewCasts(metas, ts, dst, done) == NewCasts(metas, init, dst, done) then [] else [Cast(ts[|ts| - 1], dst)]);
    }
  }

  /** Exactly the casts of the given pairs and the first n ops. */
  ghost predicate Exactly(its: seq<Item>, done: Pairs, ops: seq<Op>, n: nat)
    requires n <= |ops|
  {
    forall it :: it in its <==> match it case Cast(t, dst) => (t, dst) in done case Orig(i, o) => i < n && o == ops[i]
  }

  lemma ExactStep(its: seq<Item>, c: seq<Item>, done: Pairs, asked: Pairs, dst: string, ops: seq<Op>, n: nat)
    requires n < |ops| && Exactly(its, done, ops, n) && Distinct(its) && Distinct(c)
    requires forall it :: it in c <==> it.Cast? && it.dst == dst && (it.t, dst) in asked - done
    requires forall p :: p in asked ==> p.1 == dst
    ensures Exactly(its + c + [Orig(n, ops[n])], done + asked, ops, n + 1) && Distinct(its + c + [Orig(n, ops[n])])
  {
    var all := its + c + [Orig(n, ops[n])];
    AppendDistinct(its, c);
    AppendDistinct(its + c, [Orig(n, ops[n])]);
    hide Distinct;
    forall it
      ensures it in all <==> it in its || it in c || it == Orig(n, ops[n])
    {
    }
  }

  lemma {:induction false} ItemsExact(metas: Metas, ops: seq<Op>, n: nat)
    requires n <= |ops|
    ensures Exactly(Items(metas, ops, n), AskedBefore(metas, ops, n), ops, n) && Distinct(Items(metas, ops, n))
  {
    hide *;
    if n == 0 {
      NoneExactly(metas, ops);
    } else {
      var o := ops[n - 1];
      var dst, done := ConsumerDtype(o), AskedBefore(metas, ops, n - 1);
      ItemsExact(metas, ops, n - 1);
      NewCastsExactly(metas, o.inputs, dst, done);
      ItemsStep(metas, ops, n - 1);
      CastsAtIs(metas, ops, n - 1);
      AskedByIs(metas, o);
      AskedAllDst(metas, o.inputs, dst);
      ExactStep(Items(metas, ops, n - 1), CastsAt(metas, ops, n - 1), done, AskedBy(metas, o), dst, ops, n - 1);
    }
  }

  lemma ItemsExactly(metas: Metas, ops: seq<Op>, n: nat)
    requires n <= |ops|
    ensures var its := Items(metas, ops, n);
      && (forall it :: it in its <==> match it case Cast(t, dst) => (t, dst) in AskedBefore(metas, ops, n) case Orig(i, o) => i < n && o == ops[i])
      && Distinct(its)
  {
    hide Items, AskedBefore, Distinct;
    ItemsExact(metas, ops, n);
  }

  lemma NoneExactly(metas: Metas, ops: seq<Op>)
    ensures Exactly(Items(metas, ops, 0), AskedBefore(metas, ops, 0), ops, 0) && Distinct(Items(metas, ops, 0))
  {
  }

  lemma AskedAllDst(metas: Metas, ts: seq<Name>, dst: string)
    ensures forall p :: p in Asked(metas, ts, dst) ==> p.1 == dst
  {
  }

  lemma {:induction false} AskedIsMismatched(metas: Metas, ops: seq<Op>, n: nat)
    requires n <= |ops|
    ensures forall p :: p in AskedBefore(metas, ops, n) <==>
      exists i :: 0 <= i < n && p in AskedBy(metas, ops[i])
  {
    if n > 0 {
      AskedIsMismatched(metas, ops, n - 1);
    }
  }

  /** The list after one run. */
  function Inserted(metas: Metas, scales: map<Name, real>, ops: seq<Op>): seq<Op> {
    EmitAll(metas, scales, Items(metas, ops, |ops|))
  }

  lemma CastNamesDiffer(t: Name, d: string, u: Name, e: string)
    requires IsDst(d) && IsDst(e)
    ensures CastName(t, d) == CastName(u, e) ==> t == u && d == e
  {
    var a, b := CastName(t, d), CastName(u, e);
    assert a[|a| - 1] == d[|d| - 1] && b[|b| - 1] == e[|e| - 1];
    if a == b {
      assert d == e;
      assert t == a[..|t|] && u == b[..|u|];
    }
  }

  /** The tensor table once the pairs `done` have their casts: an entry per cast, the rest as it was. */
  ghost predicate Registered(metas: Metas, done: Pairs, after: Metas) {
    && (forall p :: p in done ==> CastName(p.0, p.1) in after && after[CastName(p.0, p.1)] == CastMeta(metas, p.0, p.1))
    && (forall x :: (forall p :: p in done ==> x != CastName(p.0, p.1)) ==>
          (x in after <==> x in metas) && (x in after ==> after[x] == metas[x]))
  }

  /** No op reads a tensor that already has the name of a cast to be made. */
  ghost predicate Fresh(metas: Metas, ops: seq<Op>) {
    forall i, p :: 0 <= i < |ops| && p in AskedBefore(metas, ops, |ops|) ==> CastName(p.0, p.1) !in ops[i].inputs
  }

  ghost predicate HasCastMeta(metas: Metas, p: (Name, string)) {
    CastName(p.0, p.1) in metas && metas[CastName(p.0, p.1)] == CastMeta(metas, p.0, p.1)
  }

  /** An op may read a tensor with the name of a cast to be made if the table already has the entry
      that the cast would give it, as after an earlier run. */
  ghost predicate Settled(metas: Metas, ops: seq<Op>) {
    forall i, p :: 0 <= i < |ops| && p in AskedBefore(metas, ops, |ops|) && CastName(p.0, p.1) in ops[i].inputs ==> HasCastMeta(metas, p)
  }

  lemma {:induction false} AskedGrows(metas: Metas, ops: seq<Op>, n: nat, m: nat)
    requires n <= m <= |ops|
    ensures AskedBefore(metas, ops, n) <= AskedBefore(metas, ops, m)
    decreases m - n
  {
    if n < m {
      AskedGrows(metas, ops, n, m - 1);
    }
  }

  lemma RegisterOne(metas: Metas, done: Pairs, after: Metas, t: Name, dst: string)
    requires Registered(metas, done, after) && IsDst(dst)
    requires forall p :: p in done ==> IsDst(p.1)
    ensures Registered(metas, done + {(t, dst)}, after[CastName(t, dst) := CastMeta(metas, t, dst)])
  {
    forall p | p in done
      ensures CastName(p.0, p.1) == CastName(t, dst) ==> p == (t, dst)
    {
      CastNamesDiffer(p.0, p.1, t, dst);
    }
    var now := after[CastName(t, dst) := CastMeta(metas, t, dst)];
    forall x | forall p :: p in done + {(t, dst)} ==> x != CastName(p.0, p.1)
      ensures (x in now <==> x in metas) && (x in now ==> now[x] == metas[x])
    {
      assert (t, dst) in done + {(t, dst)};
      assert forall p :: p in done ==> p in done + {(t, dst)};
    }
  }

  ghost predicate SettledName(metas: Metas, done: Pairs, t: Name) {
    forall p :: p in done && t == CastName(p.0, p.1) ==> HasCastMeta(metas, p)
  }

  /** Tensors that are no cast, or already had the entry of one, keep their entry. */
  lemma RegisteredLookup(metas: Metas, done: Pairs, after: Metas, t: Name)
    requires Registered(metas, done, after) && SettledName(metas, done, t)
    ensures MetaOf(after, t) == MetaOf(metas, t)
    ensures forall dst :: Mismatch(after, t, dst) <==> Mismatch(metas, t, dst)
  {
  }

  lemma SameMeta(m1: Metas, m2: Metas, scales: map<Name, real>, t: Name, dst: string)
    requires MetaOf(m1, t) == MetaOf(m2, t)
    ensures CastOp(m1, scales, t, dst) == CastOp(m2, scales, t, dst)
    ensures CastMeta(m1, t, dst) == CastMeta(m2, t, dst)
  {
  }

  lemma AskedOneMore(metas: Metas, ts: seq<Name>, t: Name, dst: string)
    ensures Asked(metas, ts + [t], dst) == Asked(metas, ts, dst) + Wanted(metas, t, dst)
  {
  }

  function Wanted(metas: Metas, t: Name, dst: string): Pairs {
    if Mismatch(metas, t, dst) then {(t, dst)} else {}
  }

  lemma ConsumerIsDst(o: Op)
    ensures IsDst(ConsumerDtype(o))
  {
  }

  lemma AskedByIs(metas: Metas, o: Op)
    ensures AskedBy(metas, o) == Asked(metas, o.inputs, ConsumerDtype(o))
  {
  }

  lemma NothingAsked(metas: Metas, scales: map<Name, real>, dst: string, before: Pairs)
    ensures before + Asked(metas, [], dst) == before
    ensures EmitAll(metas, scales, NewCasts(metas, [], dst, before)) == []
    ensures Retype(metas, [], dst) == []
  {
  }

  lemma RetypeOneMore(metas: Metas, ts: seq<Name>, t: Name, dst: string)
    ensures Retype(metas, ts + [t], dst) == Retype(metas, ts, dst) + [if Mismatch(metas, t, dst) then CastName(t, dst) else t]
  {
  }

  lemma WantedIs(metas: Metas, done: Pairs, t: Name, dst: string)
    ensures Wanted(metas, t, dst) == if Mismatch(metas, t, dst) then {(t, dst)} else {}
    ensures (t, dst) in done || !Mismatch(metas, t, dst) ==> done + Wanted(metas, t, dst) == done
  {
  }

  lemma KnownCasts(casts: map<(Name, string), Name>, done: Pairs, t: Name, dst: string)
    requires KnowsCasts(casts, done) && IsDst(dst)
    ensures casts.Keys == done && forall p :: p in done ==> IsDst(p.1)
    ensures (t, dst) in casts ==> casts[(t, dst)] == CastName(t, dst)
    ensures KnowsCasts(casts[(t, dst) := CastName(t, dst)], done + {(t, dst)})
  {
  }

  /** One input further, at most one cast more. */
  lemma EmitNewCast(metas: Metas, scales: map<Name, real>, ts: seq<Name>, t: Name, dst: string, before: Pairs)
    ensures EmitAll(metas, scales, NewCasts(metas, ts + [t], dst, before)) ==
      EmitAll(metas, scales, NewCasts(metas, ts, dst, before)) +
      if Mismatch(metas, t, dst) && (t, dst) !in before + Asked(metas, ts, dst) then [CastOp(metas, scales, t, dst)] else []
  {
    hide CastOp, Asked, Mismatch;
    var all := ts + [t];
    assert all[..|all| - 1] == ts && all[|all| - 1] == t;
  }

  ghost predicate KnowsCasts(casts: map<(Name, string), Name>, done: Pairs) {
    casts.Keys == done && forall p :: p in casts ==> casts[p] == CastName(p.0, p.1) && IsDst(p.1)
  }

  class ExportWalker {
    var ops: seq<Op>
    var tensorsMeta: Metas
    var scales: map<Name, real>

    constructor (ops: seq<Op>, tensorsMeta: Metas, scales: map<Name, real>)
      ensures this.ops == ops && this.tensorsMeta == tensorsMeta && this.scales == scales
    {
      this.ops, this.tensorsMeta, this.scales := ops, tensorsMeta, scales;
    }

    /** The tensor an input is replaced by, with the cast op that has to be made for it, if any. */
    method CastOne(t: Name, dst: string, ghost metas: Metas, ghost done: Pairs, casts0: map<(Name, string), Name>)
      returns (news: seq<Op>, name: Name, casts: map<(Name, string), Name>)
      requires Registered(metas, done, tensorsMeta) && KnowsCasts(casts0, done) && IsDst(dst)
      requires SettledName(metas, done, t)
      modifies this`tensorsMeta
      ensures name == if Mismatch(metas, t, dst) then CastName(t, dst) else t
      ensures news == if Mismatch(metas, t, dst) && (t, dst) !in done then [CastOp(metas, scales, t, dst)] else []
      ensures KnowsCasts(casts, done + Wanted(metas, t, dst))
      ensures Registered(metas, done + Wanted(metas, t, dst), tensorsMeta)
    {
      hide *;
      news, name, casts := [], t, casts0;
      RegisteredLookup(metas, done, tensorsMeta, t);
      SameMeta(metas, tensorsMeta, scales, t, dst);
      KnownCasts(casts, done, t, dst);
      WantedIs(metas, done, t, dst);
      if Mismatch(tensorsMeta, t, dst) {
        if (t, dst) !in casts {
          news := [CastOp(tensorsMeta, scales, t, dst)];
          RegisterOne(metas, done, tensorsMeta, t, dst);
          tensorsMeta := tensorsMeta[CastName(t, dst) := CastMeta(tensorsMeta, t, dst)];
          casts := casts[(t, dst) := CastName(t, dst)];
        }
        name := casts[(t, dst)];
      }
    }

    /** Casts the inputs of one op, registering the cast tensors that do not exist yet. */
    method CastInputs(o: Op, ghost metas: Metas, ghost before: Pairs, casts0: map<(Name, string), Name>)
      returns (news: seq<Op>, inputs: seq<Name>, casts: map<(Name, string), Name>)
      requires Registered(metas, before, tensorsMeta) && KnowsCasts(casts0, before)
      requires forall t :: t in o.inputs ==> SettledName(metas, before + AskedBy(metas, o), t)
      modifies this`tensorsMeta
      ensures news == EmitAll(metas, scales, NewCasts(metas, o.inputs, ConsumerDtype(o), before))
      ensures inputs == Retype(metas, o.inputs, ConsumerDtype(o))
      ensures KnowsCasts(casts, before + AskedBy(metas, o))
      ensures Registered(metas, before + AskedBy(metas, o), tensorsMeta)
    {
      hide *;
      var dst := ConsumerDtype(o);
      ConsumerIsDst(o);
      AskedByIs(metas, o);
      news, inputs, casts := [], o.inputs, casts0;
      ghost var done := before;
      NothingAsked(metas, scales, dst, before);
      assert o.inputs[..0] == [];
      for i := 0 to |o.inputs|
        invariant done == before + Asked(metas, o.inputs[..i], dst)
        invariant news == EmitAll(metas, scales, NewCasts(metas, o.inputs[..i], dst, before))
        invariant |inputs| == |o.inputs| && inputs[i..] == o.inputs[i..]
        invariant inputs[..i] == Retype(metas, o.inputs[..i], dst)
        invariant KnowsCasts(casts, done)
        invariant Registered(metas, done, tensorsMeta)
      {
        var t := o.inputs[i];
        assert o.inputs[..i + 1] == o.inputs[..i] + [t];
        AskedOneMore(metas, o.inputs[..i], t, dst);
        EmitNewCast(metas, scales, o.inputs[..i], t, dst, before);
        SettledUpTo(metas, before, o, i, t);
        var more, name;
        more, name, casts := CastOne(t, dst, metas, done, casts);
        news := news + more;
        RetypeOneMore(metas, o.inputs[..i], t, dst);
        ghost var was := inputs;
        inputs := inputs[i := name];
        assert inputs[..i + 1] == was[..i] + [name];
        assert inputs[i + 1..] == was[i..][1..] == o.inputs[i..][1..];
        done := done + Wanted(metas, t, dst);
      }
      assert o.inputs[..|o.inputs|] == o.inputs && inputs[..|o.inputs|] == inputs;
    }

    method InsertCasts()
      requires Settled(tensorsMeta, ops)
      modifies this
      ensures ops == Inserted(old(tensorsMeta), scales, old(ops))
      ensures Registered(old(tensorsMeta), AskedBefore(old(tensorsMeta), old(ops), |old(ops)|), tensorsMeta)
      ensures scales == old(scales)
    {
      hide *;
      ghost var metas := tensorsMeta;
      var newOps: seq<Op> := [];
      var casts: map<(Name, string), Name> := map[];
      NothingDone(metas, scales, ops);
      for n := 0 to |ops|
        invariant ops == old(ops) && scales == old(scales)
        invariant newOps == EmitAll(metas, scales, Items(metas, ops, n))
        invariant KnowsCasts(casts, AskedBefore(metas, ops, n))
        invariant Registered(metas, AskedBefore(metas, ops, n), tensorsMeta)
      {
        SettledFor(metas, ops, n);
        var news, inputs;
        news, inputs, casts := CastInputs(ops[n], metas, AskedBefore(metas, ops, n), casts);
        newOps := newOps + news + [ops[n].(inputs := inputs)];
        EmitOneMore(metas, scales, ops, n);
        ItemsStep(metas, ops, n);
      }
      ops := newOps;
      InsertedIs(metas, scales, old(ops));
    }
  }

  lemma NothingDone(metas: Metas, scales: map<Name, real>, ops: seq<Op>)
    ensures EmitAll(metas, scales, Items(metas, ops, 0)) == []
    ensures AskedBefore(metas, ops, 0) == {} && Registered(metas, {}, metas) && KnowsCasts(map[], {})
  {
  }

  lemma InsertedIs(metas: Metas, scales: map<Name, real>, ops: seq<Op>)
    ensures Inserted(metas, scales, ops) == EmitAll(metas, scales, Items(metas, ops, |ops|))
  {
  }

  lemma SettledFor(metas: Metas, ops: seq<Op>, n: nat)
    requires Settled(metas, ops) && n < |ops|
    ensures forall t :: t in ops[n].inputs ==> SettledName(metas, AskedBefore(metas, ops, n) + AskedBy(metas, ops[n]), t)
  {
    AskedGrows(metas, ops, n + 1, |ops|);
    hide AskedBy, CastName, HasCastMeta;
  }

  lemma SettledUpTo(metas: Metas, before: Pairs, o: Op, i: nat, t: Name)
    requires SettledName(metas, before + AskedBy(metas, o), t)
    requires i <= |o.inputs|
    ensures SettledName(metas, before + Asked(metas, o.inputs[..i], ConsumerDtype(o)), t)
  {
    assert Asked(metas, o.inputs[..i], ConsumerDtype(o)) <= AskedBy(metas, o);
    hide HasCastMeta;
  }

  lemma EmitOneMore(metas: Metas, scales: map<Name, real>, ops: seq<Op>, n: nat)
    requires n < |ops|
    ensures EmitAll(metas, scales, Items(metas, ops, n + 1)) ==
      EmitAll(metas, scales, Items(metas, ops, n)) +
      EmitAll(metas, scales, NewCasts(metas, ops[n].inputs, ConsumerDtype(ops[n]), AskedBefore(metas, ops, n))) +
      [Retyped(metas, ops[n])]
    ensures Retyped(metas, ops[n]) == ops[n].(inputs := Retype(metas, ops[n].inputs, ConsumerDtype(ops[n])))
  {
    hide *;
    ItemsStep(metas, ops, n);
    CastsAtIs(metas, ops, n);
    EmitJoins(metas, scales, Items(metas, ops, n) + CastsAt(metas, ops, n), [Orig(n, ops[n])]);
    EmitJoins(metas, scales, Items(metas, ops, n), CastsAt(metas, ops, n));
    EmitOrig(metas, scales, n, ops[n]);
  }

  lemma EmitJoins(metas: Metas, scales: map<Name, real>, a: seq<Item>, b: seq<Item>)
    ensures EmitAll(metas, scales, a + b) == EmitAll(metas, scales, a) + EmitAll(metas, scales, b)
  {
    hide Emit;
  }

  lemma EmitOrig(metas: Metas, scales: map<Name, real>, n: nat, o: Op)
    ensures EmitAll(metas, scales, [Orig(n, o)]) == [Retyped(metas, o)]
    ensures Retyped(metas, o) == o.(inputs := Retype(metas, o.inputs, ConsumerDtype(o)))
  {
    hide Retype, ConsumerDtype;
  }

  lemma CastsAtIs(metas: Metas, ops: seq<Op>, n: nat)
    requires n < |ops|
    ensures CastsAt(metas, ops, n) == NewCasts(metas, ops[n].inputs, ConsumerDtype(ops[n]), AskedBefore(metas, ops, n))
  {
    hide NewCasts, ConsumerDtype, AskedBefore;
  }

  // ---------------------------------------------------------------- what one run achieves

  /** The precision an op works in: what it says, or else what its kind ends in. */
  predicate WorksIn(o: Op, dtype: string) {
    var half := if "precision" in o.body.attrs then o.body.attrs["precision"] == "fp16" else EndsWith(o.body.kind, "_f16");
    (half && dtype == "f16") || (!half && dtype == "i8")
  }

  /** The op reads a tensor of the other of the two precisions. */
  ghost predicate Wants(metas: Metas, o: Op, t: Name, dst: string) {
    t in o.inputs && WorksIn(o, dst) && t in metas && {metas[t].dtype, dst} == {"i8", "f16"}
  }

  lemma WantsAre(metas: Metas, o: Op, t: Name, dst: string)
    ensures WorksIn(o, ConsumerDtype(o))
    ensures (t, dst) in AskedBy(metas, o) <==> Wants(metas, o, t, dst)
  {
    assert "i8"[0] == 'i' && "f16"[0] == 'f' && "int8"[0] == 'i' && "fp16"[0] == 'f';
    if Wants(metas, o, t, dst) {
      assert dst == ConsumerDtype(o);
      assert metas[t].dtype in {metas[t].dtype, dst} && "i8" in {metas[t].dtype, dst} && "f16" in {metas[t].dtype, dst};
      assert Mismatch(metas, t, dst);
    }
  }

  /** A cast says what it converts from and to and how many elements with which scale; what it makes has
      the shape of what it reads and the precision it works in. */
  lemma CastIsDescribed(metas: Metas, scales: map<Name, real>, t: Name, dst: string)
    requires t in metas && {metas[t].dtype, dst} == {"i8", "f16"}
    ensures var o := CastOp(metas, scales, t, dst);
      && o.body.kind == "cast_" + metas[t].dtype + "_to_" + dst && o.body.shape == map["n" := Numel(metas[t].shape)]
      && "scale" in o.body.quant && o.body.quant["scale"] == (if t in scales then scales[t] else 0.00000001)
      && o.inputs == [t] && |o.outputs| == 1 && o.subOps == [] && WorksIn(o, dst)
    ensures CastMeta(metas, t, dst) == TensorMeta(metas[t].shape, dst, None, "")
  {
    assert "i8"[0] == 'i' && "f16"[0] == 'f' && "int8"[0] == 'i' && "fp16"[0] == 'f';
    assert metas[t].dtype in {metas[t].dtype, dst} && dst in {metas[t].dtype, dst} && "i8" in {metas[t].dtype, dst} && "f16" in {metas[t].dtype, dst};
    hide Numel;
  }

  /** After one run every i8 or f16 input of an original op has the dtype the op works in. */
  lemma WellTypedAfterOneRun(metas: Metas, ops: seq<Op>, after: Metas, i: nat, m: nat)
    requires i < |ops| && m < |ops[i].inputs| && Settled(metas, ops)
    requires Registered(metas, AskedBefore(metas, ops, |ops|), after)
    ensures var o := Retyped(metas, ops[i]);
      o.inputs[m] in after && after[o.inputs[m]].dtype in {"i8", "f16"} ==> WorksIn(ops[i], after[o.inputs[m]].dtype)
  {
    WantsAre(metas, ops[i], "", "");
    hide WorksIn;
    var t, dst := ops[i].inputs[m], ConsumerDtype(ops[i]);
    var all := AskedBefore(metas, ops, |ops|);
    AskedIsMismatched(metas, ops, |ops|);
    assert ConsumerDtype(Retyped(metas, ops[i])) == dst;
    if Mismatch(metas, t, dst) {
      assert (t, dst) in AskedBy(metas, ops[i]);
      assert after[CastName((t, dst).0, (t, dst).1)] == CastMeta(metas, t, dst);
    } else {
      InputIsSettled(metas, ops, i, t);
      RegisteredLookup(metas, all, after, t);
    }
  }

  lemma InputIsSettled(metas: Metas, ops: seq<Op>, i: nat, t: Name)
    requires Settled(metas, ops) && i < |ops| && t in ops[i].inputs
    ensures SettledName(metas, AskedBefore(metas, ops, |ops|), t)
  {
    hide HasCastMeta, CastName;
  }

  /** There is one cast per asked pair, none for any other, and it stands before every op that asked. */
  lemma OneCastPerPair(metas: Metas, ops: seq<Op>, t: Name, dst: string)
    ensures var its := Items(metas, ops, |ops|);
      && (Cast(t, dst) in its <==> exists i :: 0 <= i < |ops| && Wants(metas, ops[i], t, dst))
      && (forall j, k :: 0 <= j < |its| && 0 <= k < |its| && its[j] == its[k] == Cast(t, dst) ==> j == k)
      && (forall j, k, i | 0 <= j < |its| && 0 <= k < |its| && 0 <= i < |ops| && its[j] == Cast(t, dst) &&
            its[k] == Orig(i, ops[i]) && Wants(metas, ops[i], t, dst) :: j < k)
  {
    hide *;
    forall i | 0 <= i < |ops|
      ensures (t, dst) in AskedBy(metas, ops[i]) <==> Wants(metas, ops[i], t, dst)
    {
      WantsAre(metas, ops[i], t, dst);
    }
    var its := Items(metas, ops, |ops|);
    ItemsExactly(metas, ops, |ops|);
    AskedIsMismatched(metas, ops, |ops|);
    OccursOnce(its, Cast(t, dst));
    forall j, k, i | 0 <= j < |its| && 0 <= k < |its| && 0 <= i < |ops| && its[j] == Cast(t, dst) &&
        its[k] == Orig(i, ops[i]) && (t, dst) in AskedBy(metas, ops[i])
      ensures j < k
    {
      CastComesFirst(metas, ops, t, dst, j, k, i);
    }
  }

  lemma OccursOnce(its: seq<Item>, it: Item)
    requires Distinct(its)
    ensures forall j, k :: 0 <= j < |its| && 0 <= k < |its| && its[j] == its[k] == it ==> j == k
  {
  }

  lemma CastComesFirst(metas: Metas, ops: seq<Op>, t: Name, dst: string, j: nat, k: nat, i: nat)
    requires j < |Items(metas, ops, |ops|)| && k < |Items(metas, ops, |ops|)| && i < |ops|
    requires Items(metas, ops, |ops|)[j] == Cast(t, dst) && Items(metas, ops, |ops|)[k] == Orig(i, ops[i])
    requires (t, dst) in AskedBy(metas, ops[i])
    ensures j < k
  {
    hide *;
    var its, head := Items(metas, ops, |ops|), Items(metas, ops, i + 1);
    ItemsExactly(metas, ops, |ops|);
    ItemsPrefix(metas, ops, i + 1, |ops|);
    ItemsStep(metas, ops, i);
    ItemsExactly(metas, ops, i + 1);
    assert Cast(t, dst) in head;
    var j' :| 0 <= j' < |head| && head[j'] == Cast(t, dst);
    OccursOnce(its, Cast(t, dst));
    OccursOnce(its, Orig(i, ops[i]));
    assert head[|head| - 1] == Orig(i, ops[i]);
    assert its[j'] == Cast(t, dst) && its[|head| - 1] == Orig(i, ops[i]);
  }

  lemma {:induction false} ItemsPrefix(metas: Metas, ops: seq<Op>, n: nat, m: nat)
    requires n <= m <= |ops|
    ensures Items(metas, ops, n) <= Items(metas, ops, m)
    decreases m - n
  {
    if n < m {
      ItemsPrefix(metas, ops, n, m - 1);
    }
  }

  // ---------------------------------------------------------------- erasing the casts

  /** The tensor a cast name stands for. */
  ghost function Source(pairs: Pairs, x: Name): Name {
    if p :| p in pairs && CastName(p.0, p.1) == x then p.0 else x
  }

  ghost function Restored(pairs: Pairs, o: Op): Op {
    o.(inputs := seq(|o.inputs|, i requires 0 <= i < |o.inputs| => Source(pairs, o.inputs[i])))
  }

  /** Reading through the casts gives every op its original inputs back. */
  lemma RestoringInputs(metas: Metas, ops: seq<Op>, i: nat)
    requires i < |ops| && Fresh(metas, ops)
    ensures Restored(AskedBefore(metas, ops, |ops|), Retyped(metas, ops[i])) == ops[i]
  {
    var all := AskedBefore(metas, ops, |ops|);
    AskedIsMismatched(metas, ops, |ops|);
    var o := Retyped(metas, ops[i]);
    forall m | 0 <= m < |o.inputs|
      ensures Source(all, o.inputs[m]) == ops[i].inputs[m]
    {
      var t, dst := ops[i].inputs[m], ConsumerDtype(ops[i]);
      if Mismatch(metas, t, dst) {
        assert (t, dst) in AskedBy(metas, ops[i]) && (t, dst) in all;
        assert CastName((t, dst).0, (t, dst).1) == o.inputs[m];
        forall p | p in all && CastName(p.0, p.1) == o.inputs[m]
          ensures p.0 == t
        {
          CastNamesDiffer(p.0, p.1, t, dst);
        }
      } else {
        assert forall p :: p in all ==> CastName(p.0, p.1) !in ops[i].inputs;
      }
    }
  }

  /** The list without the ops named like a cast, every other op reading through the casts. */
  ghost function Erased(pairs: Pairs, ops: seq<Op>): seq<Op> {
    if ops == [] then []
    else Erased(pairs, ops[..|ops| - 1]) + if IsCastName(pairs, ops[|ops| - 1].name) then [] else [Restored(pairs, ops[|ops| - 1])]
  }

  lemma {:induction false} ErasedAppend(pairs: Pairs, a: seq<Op>, b: seq<Op>)
    ensures Erased(pairs, a + b) == Erased(pairs, a) + Erased(pairs, b)
    decreases |b|
  {
    if b == [] {
      assert a + b == a;
    } else {
      assert (a + b)[..|a + b| - 1] == a + b[..|b| - 1];
      ErasedAppend(pairs, a, b[..|b| - 1]);
    }
  }

  lemma ErasedOne(pairs: Pairs, o: Op)
    requires !IsCastName(pairs, o.name)
    ensures Erased(pairs, [o]) == [Restored(pairs, o)]
  {
    assert [o][..0] == [];
    hide IsCastName, Restored;
  }

  lemma {:induction false} ErasedNone(pairs: Pairs, ops: seq<Op>)
    requires forall o :: o in ops ==> IsCastName(pairs, o.name)
    ensures Erased(pairs, ops) == []
  {
    if ops != [] {
      ErasedNone(pairs, ops[..|ops| - 1]);
    }
  }

  /** No op is named like a cast to be made. */
  ghost predicate NamesFree(metas: Metas, ops: seq<Op>) {
    forall o :: o in ops ==> !IsCastName(AskedBefore(metas, ops, |ops|), o.name)
  }

  /** What is emitted for casts is named like one. */
  lemma CastsAreNamed(metas: Metas, scales: map<Name, real>, ops: seq<Op>, n: nat)
    requires n < |ops|
    ensures forall o :: o in EmitAll(metas, scales, NewCasts(metas, ops[n].inputs, ConsumerDtype(ops[n]), AskedBefore(metas, ops, n))) ==>
      IsCastName(AskedBefore(metas, ops, |ops|), o.name)
  {
    var dst := ConsumerDtype(ops[n]);
    var c := NewCasts(metas, ops[n].inputs, dst, AskedBefore(metas, ops, n));
    NewCastsExactly(metas, ops[n].inputs, dst, AskedBefore(metas, ops, n));
    AskedGrows(metas, ops, n + 1, |ops|);
    AskedByIs(metas, ops[n]);
    ItemsStep(metas, ops, n);
    hide NewCasts, AskedBefore, AskedBy, ConsumerDtype, Asked, CastName;
    forall o | o in EmitAll(metas, scales, c)
      ensures IsCastName(AskedBefore(metas, ops, |ops|), o.name)
    {
      var k :| 0 <= k < |c| && Emit(metas, scales, c[k]) == o;
      assert c[k] in c;
      var p := (c[k].t, c[k].dst);
      assert p in AskedBefore(metas, ops, |ops|) && o.name == CastName(p.0, p.1);
    }
  }

  lemma {:induction false} ErasingUpTo(metas: Metas, scales: map<Name, real>, ops: seq<Op>, n: nat)
    requires n <= |ops| && Fresh(metas, ops) && NamesFree(metas, ops)
    ensures Erased(AskedBefore(metas, ops, |ops|), EmitAll(metas, scales, Items(metas, ops, n))) == ops[..n]
  {
    hide *;
    var all := AskedBefore(metas, ops, |ops|);
    if n == 0 {
      NothingDone(metas, scales, ops);
      ErasedNone(all, []);
    } else {
      var o := ops[n - 1];
      var before := EmitAll(metas, scales, Items(metas, ops, n - 1));
      var casts := EmitAll(metas, scales, NewCasts(metas, o.inputs, ConsumerDtype(o), AskedBefore(metas, ops, n - 1)));
      ErasingUpTo(metas, scales, ops, n - 1);
      EmitOneMore(metas, scales, ops, n - 1);
      CastsAreNamed(metas, scales, ops, n - 1);
      ErasedNone(all, casts);
      ErasedAppend(all, before, casts);
      ErasedAppend(all, before + casts, [Retyped(metas, o)]);
      NameIsFree(metas, ops, o);
      RestoringInputs(metas, ops, n - 1);
      ErasedOne(all, Retyped(metas, o));
    }
  }

  lemma NameIsFree(metas: Metas, ops: seq<Op>, o: Op)
    requires NamesFree(metas, ops) && o in ops
    ensures !IsCastName(AskedBefore(metas, ops, |ops|), Retyped(metas, o).name)
  {
    hide IsCastName, ConsumerDtype, AskedBefore;
  }

  /** Dropping the casts from the list that was made, and reading through them, gives the list back. */
  lemma ErasingCasts(metas: Metas, scales: map<Name, real>, ops: seq<Op>)
    requires Fresh(metas, ops) && NamesFree(metas, ops)
    ensures Erased(AskedBefore(metas, ops, |ops|), Inserted(metas, scales, ops)) == ops
  {
    hide *;
    ErasingUpTo(metas, scales, ops, |ops|);
    InsertedIs(metas, scales, ops);
    assert ops[..|ops|] == ops;
  }

  // ---------------------------------------------------------------- meaning

  predicate IsCastKind(kind: string) { kind == "cast_i8_to_f16" || kind == "cast_f16_to_i8" }

  /** Casts reinterpret an activation; up to precision they are the identity. */
  ghost predicate CastsAreExact(k: Kernels) {
    forall b: Body, v :: IsCastKind(b.kind) ==> k(b, [v]) == [v]
  }

  /** No op writes a tensor that it or an earlier op reads, nor one named like a cast. */
  ghost predicate NoRewrites(metas: Metas, ops: seq<Op>) {
    && (forall i, j, t :: 0 <= i <= j < |ops| && t in ops[i].inputs ==> t !in ops[j].outputs)
    && (forall i, p :: 0 <= i < |ops| && p in AskedBefore(metas, ops, |ops|) ==> CastName(p.0, p.1) !in ops[i].outputs)
  }

  ghost predicate IsCastName(pairs: Pairs, x: Name) {
    exists p :: p in pairs && x == CastName(p.0, p.1)
  }

  /** Original tensors agree, and each cast done so far holds its source. */
  ghost predicate Mirrors(all: Pairs, done: Pairs, e1: Env, e2: Env) {
    && (forall t :: !IsCastName(all, t) ==> Read(e1, t) == Read(e2, t))
    && (forall p :: p in done ==> Read(e2, CastName(p.0, p.1)) == Read(e1, p.0))
  }

  lemma RunCastOp(k: Kernels, metas: Metas, scales: map<Name, real>, all: Pairs, done: Pairs, e1: Env, e2: Env, t: Name, dst: string)
    requires CastsAreExact(k) && Mirrors(all, done, e1, e2)
    requires (t, dst) in all && !IsCastName(all, t) && done <= all
    requires forall p :: p in all ==> IsDst(p.1)
    ensures Mirrors(all, done + {(t, dst)}, e1, Exec(k, CastOp(metas, scales, t, dst), e2))
  {
    var o := CastOp(metas, scales, t, dst);
    var name := CastName(t, dst);
    var e3 := Exec(k, o, e2);
    assert ReadAll(e2, [t]) == [Read(e2, t)];
    WriteOne(e2, name, Read(e2, t));
    forall x | !IsCastName(all, x)
      ensures Read(e1, x) == Read(e3, x)
    {
      assert (t, dst) in all;
      assert x != CastName((t, dst).0, (t, dst).1);
    }
    forall p | p in done + {(t, dst)}
      ensures Read(e3, CastName(p.0, p.1)) == Read(e1, p.0)
    {
      CastNamesDiffer(p.0, p.1, t, dst);
    }
  }

  lemma {:induction false} RunNewCasts(k: Kernels, metas: Metas, scales: map<Name, real>, all: Pairs, before: Pairs, ts: seq<Name>, dst: string, e1: Env, e2: Env)
    requires CastsAreExact(k) && Mirrors(all, before, e1, e2)
    requires before + Asked(metas, ts, dst) <= all && forall p :: p in all ==> IsDst(p.1)
    requires forall t :: t in ts ==> !IsCastName(all, t)
    ensures Mirrors(all, before + Asked(metas, ts, dst), e1, Run(k, EmitAll(metas, scales, NewCasts(metas, ts, dst, before)), e2))
    decreases |ts|
  {
    if ts == [] {
      NothingAsked(metas, scales, dst, before);
    } else {
      var n := |ts| - 1;
      var init, t := ts[..n], ts[n];
      assert ts == init + [t];
      AskedOneMore(metas, init, t, dst);
      EmitNewCast(metas, scales, init, t, dst, before);
      WantedIs(metas, before + Asked(metas, init, dst), t, dst);
      hide CastOp, Mismatch, Asked, EmitAll, NewCasts, CastsAreExact, Mirrors;
      RunNewCasts(k, metas, scales, all, before, init, dst, e1, e2);
      var mid := Run(k, EmitAll(metas, scales, NewCasts(metas, init, dst, before)), e2);
      assert before + Asked(metas, ts, dst) == before + Asked(metas, init, dst) + Wanted(metas, t, dst);
      if Mismatch(metas, t, dst) && (t, dst) !in before + Asked(metas, init, dst) {
        var c := CastOp(metas, scales, t, dst);
        RunCastOp(k, metas, scales, all, before + Asked(metas, init, dst), e1, mid, t, dst);
        RunAppend(k, EmitAll(metas, scales, NewCasts(metas, init, dst, before)), [c], e2);
        RunOne(k, c, mid);
      } else {
        assert EmitAll(metas, scales, NewCasts(metas, init, dst, before)) + [] == EmitAll(metas, scales, NewCasts(metas, init, dst, before));
      }
    }
  }

  /** With its casts in place an op computes what it computed before. */
  lemma RunRetyped(k: Kernels, metas: Metas, all: Pairs, done: Pairs, o: Op, e1: Env, e2: Env)
    requires Mirrors(all, done, e1, e2) && AskedBy(metas, o) <= done <= all
    requires SelfContained(o)
    requires forall t :: t in o.inputs ==> !IsCastName(all, t)
    requires forall t :: t in o.outputs ==> !IsCastName(all, t)
    requires forall p :: p in done ==> p.0 !in o.outputs
    ensures Mirrors(all, done, Exec(k, o, e1), Exec(k, Retyped(metas, o), e2))
  {
    var o2 := Retyped(metas, o);
    var f1, f2 := Exec(k, o, e1), Exec(k, o2, e2);
    var dst := ConsumerDtype(o);
    forall i | 0 <= i < |o.inputs|
      ensures Read(e2, o2.inputs[i]) == Read(e1, o.inputs[i])
    {
      var t := o.inputs[i];
      if Mismatch(metas, t, dst) {
        assert (t, dst) in AskedBy(metas, o);
        assert Read(e2, CastName((t, dst).0, (t, dst).1)) == Read(e1, t);
      }
    }
    assert ReadAll(e1, o.inputs) == ReadAll(e2, o2.inputs);
    if o.subOps != [] {
      RunAgrees(k, o.subOps, e1, e2, iset t | t in o.inputs);
      assert ReadAll(Run(k, o.subOps, e1), o.outputs) == ReadAll(Run(k, o.subOps, e2), o.outputs);
    }
    var vs := if o.subOps == [] then k(o.body, ReadAll(e1, o.inputs)) else ReadAll(Run(k, o.subOps, e1), o.outputs);
    assert f1 == Write(e1, o.outputs, vs) && f2 == Write(e2, o.outputs, vs);
    forall t | !IsCastName(all, t)
      ensures Read(f1, t) == Read(f2, t)
    {
      WriteReads(e1, o.outputs, vs, t);
      WriteReads(e2, o.outputs, vs, t);
    }
    forall p | p in done
      ensures Read(f2, CastName(p.0, p.1)) == Read(f1, p.0)
    {
      assert IsCastName(all, CastName(p.0, p.1));
      WriteReads(e2, o.outputs, vs, CastName(p.0, p.1));
      WriteReads(e1, o.outputs, vs, p.0);
    }
  }

  lemma {:induction false} RunMirrors(k: Kernels, metas: Metas, scales: map<Name, real>, ops: seq<Op>, n: nat, env: Env)
    requires n <= |ops| && CastsAreExact(k) && Fresh(metas, ops) && NoRewrites(metas, ops)
    requires forall o :: o in ops ==> SelfContained(o)
    ensures Mirrors(AskedBefore(metas, ops, |ops|), AskedBefore(metas, ops, n), Run(k, ops[..n], env),
                    Run(k, EmitAll(metas, scales, Items(metas, ops, n)), env))
  {
    hide *;
    var all := AskedBefore(metas, ops, |ops|);
    if n == 0 {
      NothingMirrors(k, metas, scales, ops, env);
    } else {
      var o := ops[n - 1];
      assert o in ops;
      var before := AskedBefore(metas, ops, n - 1);
      RunMirrors(k, metas, scales, ops, n - 1, env);
      var e1, e2 := Run(k, ops[..n - 1], env), Run(k, EmitAll(metas, scales, Items(metas, ops, n - 1)), env);
      var casts := EmitAll(metas, scales, NewCasts(metas, o.inputs, ConsumerDtype(o), before));
      AskedGrows(metas, ops, n, |ops|);
      AskedFacts(metas, ops, n);
      AskedByIs(metas, o);
      ItemsStep(metas, ops, n - 1);
      RunNewCasts(k, metas, scales, all, before, o.inputs, ConsumerDtype(o), e1, e2);
      RunRetyped(k, metas, all, AskedBefore(metas, ops, n), o, e1, Run(k, casts, e2));
      EmitOneMore(metas, scales, ops, n - 1);
      RunAppend(k, EmitAll(metas, scales, Items(metas, ops, n - 1)), casts, env);
      RunAppend(k, EmitAll(metas, scales, Items(metas, ops, n - 1)) + casts, [Retyped(metas, o)], env);
      RunOne(k, Retyped(metas, o), Run(k, casts, e2));
      assert ops[..n] == ops[..n - 1] + [o];
      RunAppend(k, ops[..n - 1], [o], env);
      RunOne(k, o, e1);
    }
  }

  lemma NothingMirrors(k: Kernels, metas: Metas, scales: map<Name, real>, ops: seq<Op>, env: Env)
    ensures Mirrors(AskedBefore(metas, ops, |ops|), AskedBefore(metas, ops, 0), Run(k, ops[..0], env),
                    Run(k, EmitAll(metas, scales, Items(metas, ops, 0)), env))
  {
  }

  lemma AskedFacts(metas: Metas, ops: seq<Op>, n: nat)
    requires 0 < n <= |ops| && Fresh(metas, ops) && NoRewrites(metas, ops)
    ensures var all := AskedBefore(metas, ops, |ops|); var o := ops[n - 1];
      && (forall p :: p in all ==> IsDst(p.1))
      && (forall t :: t in o.inputs ==> !IsCastName(all, t))
      && (forall t :: t in o.outputs ==> !IsCastName(all, t))
      && (forall p :: p in AskedBefore(metas, ops, n) ==> p.0 !in o.outputs)
  {
    AskedIsMismatched(metas, ops, |ops|);
    AskedIsMismatched(metas, ops, n);
  }

  /** Inserting the casts changes no original tensor. */
  lemma CastingPreservesMeaning(k: Kernels, metas: Metas, scales: map<Name, real>, ops: seq<Op>, env: Env, t: Name)
    requires CastsAreExact(k) && Fresh(metas, ops) && NoRewrites(metas, ops)
    requires forall o :: o in ops ==> SelfContained(o)
    requires !IsCastName(AskedBefore(metas, ops, |ops|), t)
    ensures Read(Run(k, Inserted(metas, scales, ops), env), t) == Read(Run(k, ops, env), t)
  {
    RunMirrors(k, metas, scales, ops, |ops|, env);
    assert ops[..|ops|] == ops;
  }

  // ---------------------------------------------------------------- a second run

  lemma NewCastsNone(metas: Metas, ts: seq<Name>, dst: string, done: Pairs)
    ensures NewCasts(metas, ts, dst, done) == [] <==> Asked(metas, ts, dst) <= done
  {
    hide Asked;
    NewCastsExactly(metas, ts, dst, done);
    var c := NewCasts(metas, ts, dst, done);
    if c != [] {
      assert c[0] in c;
    }
    forall p | p in Asked(metas, ts, dst) && p !in done
      ensures c != []
    {
      AskedDst(metas, ts, dst, p);
      assert Cast(p.0, dst) in c;
    }
  }

  lemma AskedDst(metas: Metas, ts: seq<Name>, dst: string, p: (Name, string))
    requires p in Asked(metas, ts, dst)
    ensures p == (p.0, dst)
  {
  }

  lemma {:induction false} ItemsCount(metas: Metas, ops: seq<Op>, n: nat)
    requires n <= |ops|
    ensures |Items(metas, ops, n)| >= n
    ensures |Items(metas, ops, n)| == n <==> AskedBefore(metas, ops, n) == {}
    ensures AskedBefore(metas, ops, n) == {} ==> forall i :: 0 <= i < n ==> Items(metas, ops, n)[i] == Orig(i, ops[i])
  {
    hide *;
    if n == 0 {
      NoItems(metas, ops);
    } else {
      var o := ops[n - 1];
      ItemsCount(metas, ops, n - 1);
      CastsAtNone(metas, ops, n - 1);
      ItemsStep(metas, ops, n - 1);
      if AskedBefore(metas, ops, n) == {} {
        assert CastsAt(metas, ops, n - 1) == [];
        assert Items(metas, ops, n) == Items(metas, ops, n - 1) + [Orig(n - 1, o)];
      }
    }
  }

  lemma NoItems(metas: Metas, ops: seq<Op>)
    ensures Items(metas, ops, 0) == [] && AskedBefore(metas, ops, 0) == {}
  {
  }

  lemma CastsAtNone(metas: Metas, ops: seq<Op>, n: nat)
    requires n < |ops|
    ensures CastsAt(metas, ops, n) == [] <==> AskedBy(metas, ops[n]) <= AskedBefore(metas, ops, n)
  {
    AskedByIs(metas, ops[n]);
    NewCastsNone(metas, ops[n].inputs, ConsumerDtype(ops[n]), AskedBefore(metas, ops, n));
  }

  lemma RetypedSame(metas: Metas, o: Op)
    requires AskedBy(metas, o) == {}
    ensures Retyped(metas, o) == o
  {
    var dst := ConsumerDtype(o);
    hide ConsumerDtype, Mismatch;
    forall t | t in o.inputs
      ensures !Mismatch(metas, t, dst)
    {
      assert (t, dst) !in AskedBy(metas, o);
    }
    assert Retype(metas, o.inputs, dst) == o.inputs;
  }

  /** A run leaves the list alone exactly when nothing was mismatched. */
  lemma UnchangedIffNothingAsked(metas: Metas, scales: map<Name, real>, ops: seq<Op>)
    ensures Inserted(metas, scales, ops) == ops <==> AskedBefore(metas, ops, |ops|) == {}
  {
    ItemsCount(metas, ops, |ops|);
    if AskedBefore(metas, ops, |ops|) == {} {
      AskedIsMismatched(metas, ops, |ops|);
      hide Items, AskedBefore, AskedBy;
      forall i | 0 <= i < |ops|
        ensures Emit(metas, scales, Items(metas, ops, |ops|)[i]) == ops[i]
      {
        assert forall p :: p in AskedBy(metas, ops[i]) ==> p in AskedBefore(metas, ops, |ops|);
        RetypedSame(metas, ops[i]);
      }
    }
  }

  /** The pass is stable under a second run exactly when the first run inserted nothing; otherwise
      the second run makes every cast read the tensor it writes. */
  lemma SecondRun(metas: Metas, scales: map<Name, real>, ops: seq<Op>, after: Metas)
    requires Settled(metas, ops) && Registered(metas, AskedBefore(metas, ops, |ops|), after)
    ensures Settled(after, Inserted(metas, scales, ops))
    ensures var once := Inserted(metas, scales, ops);
      Inserted(after, scales, once) == once <==> AskedBefore(metas, ops, |ops|) == {}
    ensures forall p :: p in AskedBefore(metas, ops, |ops|) ==>
      var c := CastOp(metas, scales, p.0, p.1); c in Inserted(metas, scales, ops) && Retyped(after, c).inputs == c.outputs
  {
    hide *;
    var once := Inserted(metas, scales, ops);
    var all := AskedBefore(metas, ops, |ops|);
    UnchangedIffNothingAsked(metas, scales, ops);
    UnchangedIffNothingAsked(after, scales, once);
    forall p | p in all
      ensures var c := CastOp(metas, scales, p.0, p.1);
        c in once && Retyped(after, c).inputs == c.outputs && p in AskedBefore(after, once, |once|)
    {
      assert p == (p.0, p.1);
      CastIsRecast(metas, scales, ops, after, p.0, p.1);
      var j := CastIsThere(metas, scales, ops, p.0, p.1);
      AskedIsMismatched(after, once, |once|);
      assert p in AskedBy(after, once[j]);
    }
    if all == {} {
      NothingRegistered(metas, after);
      SameAsked(metas, after, ops, |ops|);
    }
    SettledAgain(metas, scales, ops, after);
  }

  ghost predicate IsEmittedCast(metas: Metas, scales: map<Name, real>, ops: seq<Op>, o: Op, p: (Name, string)) {
    p in AskedBefore(metas, ops, |ops|) && o == CastOp(metas, scales, p.0, p.1)
  }

  lemma ItemIs(metas: Metas, ops: seq<Op>, it: Item)
    requires it in Items(metas, ops, |ops|)
    ensures it.Cast? ==> (it.t, it.dst) in AskedBefore(metas, ops, |ops|)
    ensures it.Orig? ==> it.i < |ops| && it.op == ops[it.i]
  {
    hide *;
    ItemsExactly(metas, ops, |ops|);
  }

  lemma EmittedItem(metas: Metas, scales: map<Name, real>, ops: seq<Op>, o: Op) returns (it: Item)
    requires o in Inserted(metas, scales, ops)
    ensures it in Items(metas, ops, |ops|) && o == Emit(metas, scales, it)
  {
    hide Items, Emit;
    var its := Items(metas, ops, |ops|);
    var j :| 0 <= j < |its| && Emit(metas, scales, its[j]) == o;
    it := its[j];
  }

  /** Every op of the new list is a cast that was asked for or an original op. */
  lemma EmittedAre(metas: Metas, scales: map<Name, real>, ops: seq<Op>, o: Op)
    requires o in Inserted(metas, scales, ops)
    ensures (exists p :: IsEmittedCast(metas, scales, ops, o, p)) || exists i :: 0 <= i < |ops| && o == Retyped(metas, ops[i])
  {
    hide Items, AskedBefore, CastOp, Retyped, Inserted;
    var it := EmittedItem(metas, scales, ops, o);
    ItemIs(metas, ops, it);
    if it.Cast? {
      assert IsEmittedCast(metas, scales, ops, o, (it.t, it.dst));
    }
  }

  /** What a second run asks for is what the first one asked for. */
  lemma SecondAsksNoMore(metas: Metas, scales: map<Name, real>, ops: seq<Op>, after: Metas, p: (Name, string))
    requires Settled(metas, ops) && Registered(metas, AskedBefore(metas, ops, |ops|), after)
    requires p in AskedBefore(after, Inserted(metas, scales, ops), |Inserted(metas, scales, ops)|)
    ensures p in AskedBefore(metas, ops, |ops|)
  {
    hide *;
    var once := Inserted(metas, scales, ops);
    AskedIsMismatched(after, once, |once|);
    var j :| 0 <= j < |once| && p in AskedBy(after, once[j]);
    EmittedAre(metas, scales, ops, once[j]);
    if q :| IsEmittedCast(metas, scales, ops, once[j], q) {
      EmittedCastAsks(metas, scales, ops, after, once[j], q, p);
    } else {
      var i :| 0 <= i < |ops| && once[j] == Retyped(metas, ops[i]);
      RetypedAsksNothing(metas, ops, after, i, p);
    }
  }

  lemma EmittedCastAsks(metas: Metas, scales: map<Name, real>, ops: seq<Op>, after: Metas, o: Op, q: (Name, string), p: (Name, string))
    requires IsEmittedCast(metas, scales, ops, o, q) && p in AskedBy(after, o)
    ensures p in AskedBefore(metas, ops, |ops|)
  {
    AskedIsMismatched(metas, ops, |ops|);
    hide AskedBefore, CastOp;
    var i :| 0 <= i < |ops| && q in AskedBy(metas, ops[i]);
    assert q.1 == ConsumerDtype(ops[i]);
    ConsumerIsDst(ops[i]);
    CastAsksForItself(metas, scales, after, q.0, q.1, p);
  }

  lemma CastAsksForItself(metas: Metas, scales: map<Name, real>, after: Metas, t: Name, dst: string, p: (Name, string))
    requires p in AskedBy(after, CastOp(metas, scales, t, dst)) && (dst == "i8" || dst == "f16")
    ensures p == (t, dst)
  {
    assert ConsumerDtype(CastOp(metas, scales, t, dst)) == dst;
  }

  lemma RetypedAsksNothing(metas: Metas, ops: seq<Op>, after: Metas, i: nat, p: (Name, string))
    requires Settled(metas, ops) && Registered(metas, AskedBefore(metas, ops, |ops|), after) && i < |ops|
    ensures p !in AskedBy(after, Retyped(metas, ops[i]))
  {
    var o := Retyped(metas, ops[i]);
    if p in AskedBy(after, o) {
      assert p.0 in o.inputs && p == (p.0, ConsumerDtype(o)) && Mismatch(after, p.0, ConsumerDtype(o));
      var m :| 0 <= m < |o.inputs| && o.inputs[m] == p.0;
      hide Settled, Registered, AskedBefore, Retyped;
      WellTypedAfterOneRun(metas, ops, after, i, m);
    }
  }

  /** The list after a run can be run on again. */
  lemma SettledAgain(metas: Metas, scales: map<Name, real>, ops: seq<Op>, after: Metas)
    requires Settled(metas, ops) && Registered(metas, AskedBefore(metas, ops, |ops|), after)
    ensures Settled(after, Inserted(metas, scales, ops))
  {
    var once := Inserted(metas, scales, ops);
    hide *;
    forall p | p in AskedBefore(after, once, |once|)
      ensures HasCastMeta(after, p)
    {
      SecondAsksNoMore(metas, scales, ops, after, p);
      RegisteredHas(metas, ops, after, p);
    }
    SettledIf(after, once);
  }

  lemma SettledIf(metas: Metas, ops: seq<Op>)
    requires forall p :: p in AskedBefore(metas, ops, |ops|) ==> HasCastMeta(metas, p)
    ensures Settled(metas, ops)
  {
    hide HasCastMeta, AskedBefore;
  }

  lemma RegisteredHas(metas: Metas, ops: seq<Op>, after: Metas, p: (Name, string))
    requires Settled(metas, ops) && Registered(metas, AskedBefore(metas, ops, |ops|), after) && p in AskedBefore(metas, ops, |ops|)
    ensures HasCastMeta(after, p)
  {
    AskedIsMismatched(metas, ops, |ops|);
    var i :| 0 <= i < |ops| && p in AskedBy(metas, ops[i]);
    assert p.0 in ops[i].inputs;
    InputIsSettled(metas, ops, i, p.0);
    RegisteredLookup(metas, AskedBefore(metas, ops, |ops|), after, p.0);
    hide Settled, AskedBefore, AskedBy;
  }

  lemma CastIsThere(metas: Metas, scales: map<Name, real>, ops: seq<Op>, t: Name, dst: string) returns (j: nat)
    requires (t, dst) in AskedBefore(metas, ops, |ops|)
    ensures j < |Inserted(metas, scales, ops)| && Inserted(metas, scales, ops)[j] == CastOp(metas, scales, t, dst)
  {
    hide Items, AskedBefore, CastOp;
    var its := Items(metas, ops, |ops|);
    ItemsExactly(metas, ops, |ops|);
    assert Cast(t, dst) in its;
    j :| 0 <= j < |its| && its[j] == Cast(t, dst);
  }

  lemma NothingRegistered(metas: Metas, after: Metas)
    requires Registered(metas, {}, after)
    ensures forall x :: MetaOf(after, x) == MetaOf(metas, x) && (x in after <==> x in metas)
  {
  }

  lemma CastIsRecast(metas: Metas, scales: map<Name, real>, ops: seq<Op>, after: Metas, t: Name, dst: string)
    requires Settled(metas, ops) && Registered(metas, AskedBefore(metas, ops, |ops|), after)
    requires (t, dst) in AskedBefore(metas, ops, |ops|)
    ensures var c := CastOp(metas, scales, t, dst);
      Retyped(after, c).inputs == c.outputs && (t, dst) in AskedBy(after, c)
  {
    AskedIsMismatched(metas, ops, |ops|);
    var i :| 0 <= i < |ops| && (t, dst) in AskedBy(metas, ops[i]);
    InputIsSettled(metas, ops, i, t);
    assert Mismatch(metas, t, dst);
    RegisteredLookup(metas, AskedBefore(metas, ops, |ops|), after, t);
    hide Registered, AskedBefore, Settled;
    MismatchedCastIsRecast(metas, scales, after, t, dst);
  }

  lemma MismatchedCastIsRecast(metas: Metas, scales: map<Name, real>, after: Metas, t: Name, dst: string)
    requires IsDst(dst) && Mismatch(after, t, dst)
    ensures var c := CastOp(metas, scales, t, dst);
      Retyped(after, c).inputs == c.outputs && (t, dst) in AskedBy(after, c)
  {
    var c := CastOp(metas, scales, t, dst);
    assert ConsumerDtype(c) == dst;
    assert c.inputs[0] == t;
  }

  lemma {:induction false} SameAsked(metas: Metas, after: Metas, ops: seq<Op>, n: nat)
    requires n <= |ops|
    requires forall x :: MetaOf(after, x) == MetaOf(metas, x) && (x in after <==> x in metas)
    ensures AskedBefore(after, ops, n) == AskedBefore(metas, ops, n)
  {
    if n > 0 {
      SameAsked(metas, after, ops, n - 1);
      var o := ops[n - 1];
      assert forall t :: Mismatch(after, t, ConsumerDtype(o)) <==> Mismatch(metas, t, ConsumerDtype(o)) by {
        assert forall t :: t in metas ==> MetaOf(metas, t) == metas[t];
        assert forall t :: t in after ==> MetaOf(after, t) == after[t];
      }
    }
  }

  /** One float op that reads one int8 tensor. */
  const ONE_READER: seq<Op> := [Op("r", Body("relu_f16", map[], map[], map[]), ["x"], ["y"], [], [], None, [], None, Original, map[])]

  const ONE_TENSOR: Metas := map["x" := TensorMeta([1], "i8", None, "")]

  lemma OneAsked()
    ensures AskedBefore(ONE_TENSOR, ONE_READER, 1) == {("x", "f16")}
  {
    var o := ONE_READER[0];
    assert EndsWith(o.body.kind, "_f16") by { assert "relu_f16"[4..] == "_f16"; }
    assert ConsumerDtype(o) == "f16";
    assert AskedBy(ONE_TENSOR, o) == {("x", "f16")};
    assert AskedBefore(ONE_TENSOR, ONE_READER, 1) == AskedBefore(ONE_TENSOR, ONE_READER, 0) + AskedBy(ONE_TENSOR, o);
  }

  function OneCast(): Metas { ONE_TENSOR[CastName("x", "f16") := CastMeta(ONE_TENSOR, "x", "f16")] }

  lemma OneRegistered()
    ensures Registered(ONE_TENSOR, {("x", "f16")}, OneCast())
  {
    hide CastName, CastMeta;
  }

  lemma OneSettled()
    ensures Settled(ONE_TENSOR, ONE_READER)
  {
    OneAsked();
    assert |CastName("x", "f16")| > 1;
    hide AskedBefore, CastName;
  }

  /** Its list gets one cast in the first run, and another list in the second. */
  lemma SecondRunCastsAgain(scales: map<Name, real>)
    ensures AskedBefore(ONE_TENSOR, ONE_READER, 1) == {("x", "f16")} && Settled(ONE_TENSOR, ONE_READER)
    ensures var once := Inserted(ONE_TENSOR, scales, ONE_READER); Inserted(OneCast(), scales, once) != once
  {
    assert |ONE_READER| == 1;
    hide *;
    OneAsked();
    OneRegistered();
    OneSettled();
    SecondRun(ONE_TENSOR, scales, ONE_READER, OneCast());
  }
}
