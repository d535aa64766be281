/** The precision an output can claim (pipeline/cuda_dtypes.py): the narrowest float storage among a
    tensor and everything it depends on. */
module Cones {
  import opened Ir

  datatype Storage = Fp32 | Fp16 | Bf16

  /** Looser bounds come later. */
  function Rank(s: Storage): nat {
    match s
    case Fp32 => 0
    case Fp16 => 1
    case Bf16 => 2
  }

  /** Storage of a dtype; integers are exact and count as fp32. */
  function StorageOf(dtype: string): Storage {
    if dtype == "bf16" then Bf16 else if dtype == "f16" || dtype == "fp16" then Fp16 else Fp32
  }

  function Narrowest(s: set<Storage>): Storage {
    if Bf16 in s then Bf16 else if Fp16 in s then Fp16 else Fp32
  }

  const ROLES := ["weight", "bias", "gamma_key", "beta_key"]

  function WeightStorage(g: Graph, key: string): Storage {
    if key in g.weightDtypes then StorageOf(g.weightDtypes[key]) else Fp32
  }

  function WeightsOf(g: Graph, o: Op): set<Storage> {
    set s, r | s in StagesOf(o) && r in ROLES && r in s.body.attrs :: WeightStorage(g, s.body.attrs[r])
  }

  type Makers = map<Name, Op>

  /** The last op that makes each tensor, inside a fused op too. */
  function MakersOf(ops: seq<Op>): Makers {
    if ops == [] then map[]
    else
      var o := ops[|ops| - 1];
      var made := Makes(o);
      MakersOf(ops[..|ops| - 1]) + map t | t in made :: o
  }

  /** The op at `j` is the last to make `t`. */
  ghost predicate LastMaker(ops: seq<Op>, t: Name, j: nat) {
    && j < |ops| && (t in ops[j].outputs || t in ops[j].internal)
    && forall i: nat :: j < i < |ops| ==> t !in ops[i].outputs && t !in ops[i].internal
  }

  /** A later op that makes a tensor, inside a fused op too, takes the place of an earlier one. */
  lemma {:induction false} MakersAreLast(ops: seq<Op>, t: Name)
    ensures t in MakersOf(ops) <==> exists j: nat :: LastMaker(ops, t, j)
    ensures forall j: nat :: LastMaker(ops, t, j) ==> t in MakersOf(ops) && MakersOf(ops)[t] == ops[j]
  {
    if ops != [] {
      var n: nat := |ops| - 1;
      var init, o := ops[..n], ops[n];
      MakersAreLast(init, t);
      if t in Makes(o) {
        assert LastMaker(ops, t, n);
      } else {
        assert t !in o.outputs && t !in o.internal;
        forall j: nat
          ensures LastMaker(ops, t, j) <==> LastMaker(init, t, j)
        {
          assert init[..n] == ops[..n];
        }
      }
    }
  }

  /** What the tensor itself contributes: its own dtype and the weights of the op that makes it. */
  function Own(g: Graph, makers: Makers, t: Name): set<Storage> {
    {StorageOf(if t in g.tensors then g.tensors[t].dtype else "f32")} + if t in makers then WeightsOf(g, makers[t]) else {}
  }

  ghost predicate ReadsFrom(makers: Makers, t: Name, x: Name) {
    t in makers && x in makers[t].inputs
  }

  ghost predicate Chain(makers: Makers, p: seq<Name>) {
    p != [] && forall i {:trigger p[i]} :: 0 <= i < |p| - 1 ==> ReadsFrom(makers, p[i], p[i + 1])
  }

  /** `t` is `x` or depends on it. */
  ghost predicate Needs(makers: Makers, t: Name, x: Name) {
    exists p :: Chain(makers, p) && p[0] == t && p[|p| - 1] == x
  }

  /** The narrowest storage in the cone of `t`: some tensor of the cone has it, or it is fp32, and no
      tensor of the cone has a looser one. */
  ghost predicate IsCone(g: Graph, makers: Makers, t: Name, s: Storage) {
    && (s == Fp32 || exists x :: Needs(makers, t, x) && s in Own(g, makers, x))
    && forall x, d :: Needs(makers, t, x) && d in Own(g, makers, x) ==> Rank(d) <= Rank(s)
  }

  lemma NeedsSelf(makers: Makers, t: Name)
    ensures Needs(makers, t, t)
  {
    assert Chain(makers, [t]);
  }

  lemma NeedsMore(makers: Makers, t: Name, x: Name, y: Name)
    requires Needs(makers, t, x) && ReadsFrom(makers, x, y)
    ensures Needs(makers, t, y)
  {
    var p :| Chain(makers, p) && p[0] == t && p[|p| - 1] == x;
    var q := p + [y];
    forall i | 0 <= i < |q| - 1
      ensures ReadsFrom(makers, q[i], q[i + 1])
    {
      if i < |p| - 1 { assert ReadsFrom(makers, p[i], p[i + 1]); }
    }
    assert Chain(makers, q);
  }

  lemma NeedsThrough(makers: Makers, t: Name, x: Name, y: Name)
    requires Needs(makers, t, x) && Needs(makers, x, y)
    ensures Needs(makers, t, y)
  {
    var p :| Chain(makers, p) && p[0] == x && p[|p| - 1] == y;
    AlongChain(makers, t, p, |p| - 1);
  }

  lemma {:induction false} AlongChain(makers: Makers, t: Name, p: seq<Name>, i: nat)
    requires Chain(makers, p) && Needs(makers, t, p[0]) && i < |p|
    ensures Needs(makers, t, p[i])
  {
    if i > 0 {
      AlongChain(makers, t, p, i - 1);
      assert ReadsFrom(makers, p[i - 1], p[i - 1 + 1]);
      NeedsMore(makers, t, p[i - 1], p[i]);
    }
  }

  /** A set that holds `t` and is closed under reading holds the whole cone. */
  lemma ConeInside(makers: Makers, seen: set<Name>, t: Name, x: Name)
    requires t in seen && Needs(makers, t, x)
    requires forall a, b :: a in seen && ReadsFrom(makers, a, b) ==> b in seen
    ensures x in seen
  {
    var p :| Chain(makers, p) && p[0] == t && p[|p| - 1] == x;
    ChainInside(makers, seen, p, |p| - 1);
  }

  lemma {:induction false} ChainInside(makers: Makers, seen: set<Name>, p: seq<Name>, i: nat)
    requires Chain(makers, p) && p[0] in seen && i < |p|
    requires forall a, b :: a in seen && ReadsFrom(makers, a, b) ==> b in seen
    ensures p[i] in seen
  {
    if i > 0 {
      ChainInside(makers, seen, p, i - 1);
      assert ReadsFrom(makers, p[i - 1], p[i - 1 + 1]);
    }
  }

  /** There is one answer, and a tensor never claims more than what it depends on. */
  lemma ConeIsMonotone(g: Graph, makers: Makers, t: Name, x: Name, s: Storage, r: Storage)
    requires IsCone(g, makers, t, s) && IsCone(g, makers, x, r) && Needs(makers, t, x)
    ensures Rank(r) <= Rank(s)
    ensures t == x ==> r == s
  {
    if r != Fp32 {
      var y :| Needs(makers, x, y) && r in Own(g, makers, y);
      NeedsThrough(makers, t, x, y);
    }
    if t == x && s != Fp32 {
      var y :| Needs(makers, t, y) && s in Own(g, makers, y);
    }
  }

  function Names(makers: Makers, t: Name): set<Name> {
    {t} + set o, x | o in makers.Values && x in o.inputs :: x
  }

  method ConeOf(g: Graph, makers: Makers, t: Name) returns (s: Storage)
    ensures IsCone(g, makers, t, s)
  {
    hide Needs, Own;
    var seen: set<Name>, stack, found: set<Storage> := {}, [t], {};
    NeedsSelf(makers, t);
    while stack != []
      invariant seen <= Names(makers, t)
      invariant forall k :: 0 <= k < |stack| ==> stack[k] in Names(makers, t) && Needs(makers, t, stack[k])
      invariant forall x :: x in seen ==> Needs(makers, t, x) && Own(g, makers, x) <= found
      invariant forall d :: d in found ==> exists x :: x in seen && d in Own(g, makers, x)
      invariant t in seen || t in stack
      invariant forall a, b :: a in seen && ReadsFrom(makers, a, b) ==> b in seen || b in stack
      decreases Names(makers, t) - seen, |stack|
    {
      var x, rest := stack[|stack| - 1], stack[..|stack| - 1];
      assert stack == rest + [x];
      if x in seen {
        stack := rest;
      } else {
        assert x in Names(makers, t) - seen;
        seen := seen + {x};
        found := found + Own(g, makers, x);
        stack := rest;
        if x in makers {
          InputsNamed(makers, t, x);
          forall k | 0 <= k < |makers[x].inputs|
            ensures Needs(makers, t, makers[x].inputs[k])
          {
            NeedsMore(makers, t, x, makers[x].inputs[k]);
          }
          stack := stack + makers[x].inputs;
        }
      }
    }
    s := Narrowest(found);
    forall x, d | Needs(makers, t, x) && d in Own(g, makers, x)
      ensures Rank(d) <= Rank(s)
    {
      ConeInside(makers, seen, t, x);
    }
  }

  lemma InputsNamed(makers: Makers, t: Name, x: Name)
    requires x in makers
    ensures forall k :: 0 <= k < |makers[x].inputs| ==> makers[x].inputs[k] in Names(makers, t)
  {
    var o := makers[x];
    assert o in makers.Values;
    forall k | 0 <= k < |o.inputs|
      ensures o.inputs[k] in Names(makers, t)
    {
      assert o.inputs[k] in o.inputs;
    }
  }

  method ConeDtypes(g: Graph, tensors: seq<Name>) returns (r: map<Name, Storage>)
    ensures r.Keys == set t | t in tensors
    ensures forall t :: t in tensors ==> IsCone(g, MakersOf(g.ops), t, r[t])
  {
    var makers := MakersOf(g.ops);
    r := map[];
    for i := 0 to |tensors|
      invariant r.Keys == set t | t in tensors[..i]
      invariant forall t :: t in r ==> IsCone(g, makers, t, r[t])
    {
      var t := tensors[i];
      assert tensors[..i + 1] == tensors[..i] + [t];
      if t !in r {
        var s := ConeOf(g, makers, t);
        r := r[t := s];
      }
    }
    assert tensors[..|tensors|] == tensors;
  }
}
