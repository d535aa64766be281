/** The IR graph all passes rewrite, and what running it means.

    A graph is a list of ops over named tensors. Running an op reads its inputs from an
    environment and writes its outputs. Kernels are uninterpreted: a kernel may do anything
    with the op's semantic body and the input values, and nothing with its bookkeeping. */
module Ir {

  datatype Option<+T> = None | Some(value: T)

  datatype Result<+T, +E> = Ok(value: T) | Err(error: E)

  type Name = string

  /** Numbers of exact arithmetic, with the infinities; NaN is what has no value. */
  datatype Num = Fin(value: real) | PosInf | NegInf | NaN

  type Value = seq<Num>

  /** The part of an op a kernel may depend on. */
  datatype Body = Body(kind: string, shape: map<string, int>, quant: map<string, real>, attrs: map<string, string>)

  /** Where a rewriter took an op from. */
  datatype Origin =
    | Original
    | Fused(from: seq<int>, internalTensors: seq<Name>)
    | Piece(of: int, piece: nat, pieces: nat, fusedKind: string)
    | Tile(of: int, tile: nat, tiles: nat, width: int, offset: int)

  datatype Op = Op(
    name: string,
    body: Body,
    inputs: seq<Name>,
    outputs: seq<Name>,
    internal: seq<Name>,
    subOps: seq<Op>,
    id: Option<int>,             // dispatch_id; view ops have none
    deps: seq<int>,              // depends_on
    target: Option<string>,      // hardware_target
    origin: Origin,
    marks: map<string, string>)  // hint, slot_variant

  datatype TensorMeta = TensorMeta(shape: seq<int>, dtype: string, quant: Option<real>, const_: string)

  datatype Graph = Graph(
    ops: seq<Op>,
    tensors: map<Name, TensorMeta>,
    inputs: seq<Name>,
    outputs: seq<Name>,
    derivations: map<string, string>,
    weightDtypes: map<string, string>)

  /** What an op fills in besides its outputs: tensors internal to a fused group. */
  function Makes(o: Op): seq<Name> { o.outputs + o.internal }

  /** The stages of a fused op; any other op is its own single stage. */
  function StagesOf(o: Op): (s: seq<Op>)
    ensures s != []
  {
    if o.subOps == [] then [o] else o.subOps
  }

  function TargetOf(o: Op): string { if o.target.Some? then o.target.value else "any" }

  ghost predicate UniqueNames(ops: seq<Op>) {
    forall i, j :: 0 <= i < j < |ops| ==> ops[i].name != ops[j].name
  }

  // ---------------------------------------------------------------- meaning

  type Env = map<Name, Value>
  type Kernels = (Body, seq<Value>) -> seq<Value>

  function Read(env: Env, t: Name): Value {
    if t in env then env[t] else []
  }

  function ReadAll(env: Env, ts: seq<Name>): (vs: seq<Value>)
    ensures |vs| == |ts|
    ensures forall i :: 0 <= i < |ts| ==> vs[i] == Read(env, ts[i])
  {
    seq(|ts|, i requires 0 <= i < |ts| => Read(env, ts[i]))
  }

  /** Stores values under names, left to right; a kernel that returns too few leaves [] . */
  function Write(env: Env, ts: seq<Name>, vs: seq<Value>): Env
    decreases |ts|
  {
    if ts == [] then env
    else Write(env[ts[0] := if vs == [] then [] else vs[0]], ts[1..], if vs == [] then [] else vs[1..])
  }

  /** A fused op runs its stages in order and exposes only its outputs. */
  function Exec(k: Kernels, o: Op, env: Env): Env
    decreases o, 1
  {
    if o.subOps == [] then
      Write(env, o.outputs, k(o.body, ReadAll(env, o.inputs)))
    else
      Write(env, o.outputs, ReadAll(Run(k, o.subOps, env), o.outputs))
  }

  function Run(k: Kernels, ops: seq<Op>, env: Env): Env
    decreases ops, 0
  {
    if ops == [] then env else Run(k, ops[1..], Exec(k, ops[0], env))
  }

  ghost predicate Agree(e1: Env, e2: Env, names: iset<Name>) {
    forall t :: t in names ==> Read(e1, t) == Read(e2, t)
  }

  /** A fused op reads through its declared inputs only, and its stages make its outputs. */
  ghost predicate SelfContained(o: Op)
    decreases o, 1
  {
    o.subOps != [] ==>
      StagesContained(o.subOps, iset t | t in o.inputs) && forall t :: t in o.outputs ==> MadeBy(o.subOps, t)
  }

  ghost predicate StagesContained(ops: seq<Op>, known: iset<Name>)
    decreases ops, 0
  {
    ops == [] ||
    (&& SelfContained(ops[0])
     && (forall t :: t in ops[0].inputs ==> t in known)
     && StagesContained(ops[1..], known + iset t | t in ops[0].outputs))
  }

  ghost predicate MadeBy(ops: seq<Op>, t: Name) {
    exists o :: o in ops && t in o.outputs
  }

  // ---------------------------------------------------------------- basic facts

  lemma WriteReads(env: Env, ts: seq<Name>, vs: seq<Value>, t: Name)
    ensures t !in ts ==> Read(Write(env, ts, vs), t) == Read(env, t)
    ensures t in ts ==> forall env2 :: Read(Write(env, ts, vs), t) == Read(Write(env2, ts, vs), t)
    decreases |ts|
  {
    if ts != [] {
      var v := if vs == [] then [] else vs[0];
      var rest := if vs == [] then [] else vs[1..];
      WriteReads(env[ts[0] := v], ts[1..], rest, t);
      forall env2 | t in ts
        ensures Read(Write(env, ts, vs), t) == Read(Write(env2, ts, vs), t)
      {
        WriteReads(env2[ts[0] := v], ts[1..], rest, t);
        if t !in ts[1..] {
          assert t == ts[0];
        }
      }
    }
  }

  lemma WriteOne(env: Env, t: Name, v: Value)
    ensures Write(env, [t], [v]) == env[t := v]
  {
    assert [t][1..] == [] && [v][1..] == [];
  }

  lemma RunOne(k: Kernels, o: Op, env: Env)
    ensures Run(k, [o], env) == Exec(k, o, env)
  {
    assert [o][1..] == [];
  }

  /** Running an op touches only its outputs. */
  lemma ExecFrame(k: Kernels, o: Op, env: Env, t: Name)
    requires t !in o.outputs
    ensures Read(Exec(k, o, env), t) == Read(env, t)
  {
    if o.subOps == [] {
      WriteReads(env, o.outputs, k(o.body, ReadAll(env, o.inputs)), t);
    } else {
      WriteReads(env, o.outputs, ReadAll(Run(k, o.subOps, env), o.outputs), t);
    }
  }

  lemma {:induction false} RunFrame(k: Kernels, ops: seq<Op>, env: Env, t: Name)
    requires forall o :: o in ops ==> t !in o.outputs
    ensures Read(Run(k, ops, env), t) == Read(env, t)
    decreases |ops|
  {
    if ops != [] {
      ExecFrame(k, ops[0], env, t);
      RunFrame(k, ops[1..], Exec(k, ops[0], env), t);
    }
  }

  lemma {:induction false} RunAppend(k: Kernels, a: seq<Op>, b: seq<Op>, env: Env)
    ensures Run(k, a + b, env) == Run(k, b, Run(k, a, env))
    decreases |a|
  {
    if a == [] {
      assert a + b == b;
    } else {
      assert (a + b)[0] == a[0] && (a + b)[1..] == a[1..] + b;
      RunAppend(k, a[1..], b, Exec(k, a[0], env));
    }
  }

  /** The outputs of an op depend on nothing but the tensors it declares as inputs. */
  lemma {:induction false} ExecAgrees(k: Kernels, o: Op, e1: Env, e2: Env)
    requires SelfContained(o)
    requires Agree(e1, e2, iset t | t in o.inputs)
    ensures Agree(Exec(k, o, e1), Exec(k, o, e2), iset t | t in o.outputs)
    decreases o, 1
  {
    var v1 := if o.subOps == [] then k(o.body, ReadAll(e1, o.inputs)) else ReadAll(Run(k, o.subOps, e1), o.outputs);
    var v2 := if o.subOps == [] then k(o.body, ReadAll(e2, o.inputs)) else ReadAll(Run(k, o.subOps, e2), o.outputs);
    if o.subOps == [] {
      assert ReadAll(e1, o.inputs) == ReadAll(e2, o.inputs);
    } else {
      RunAgrees(k, o.subOps, e1, e2, iset t | t in o.inputs);
      assert ReadAll(Run(k, o.subOps, e1), o.outputs) == ReadAll(Run(k, o.subOps, e2), o.outputs);
    }
    assert v1 == v2;
    forall t | t in o.outputs
      ensures Read(Write(e1, o.outputs, v1), t) == Read(Write(e2, o.outputs, v1), t)
    {
      WriteReads(e1, o.outputs, v1, t);
    }
  }

  lemma {:induction false} RunAgrees(k: Kernels, ops: seq<Op>, e1: Env, e2: Env, known: iset<Name>)
    requires StagesContained(ops, known)
    requires Agree(e1, e2, known)
    ensures Agree(Run(k, ops, e1), Run(k, ops, e2), known)
    ensures forall t :: MadeBy(ops, t) ==> Read(Run(k, ops, e1), t) == Read(Run(k, ops, e2), t)
    decreases ops, 0
  {
    if ops != [] {
      var o := ops[0];
      var f1, f2 := Exec(k, o, e1), Exec(k, o, e2);
      var more := known + iset t | t in o.outputs;
      ExecAgrees(k, o, e1, e2);
      forall t | t in more
        ensures Read(f1, t) == Read(f2, t)
      {
        if t !in o.outputs {
          ExecFrame(k, o, e1, t);
          ExecFrame(k, o, e2, t);
        }
      }
      RunAgrees(k, ops[1..], f1, f2, more);
      forall t | MadeBy(ops, t)
        ensures Read(Run(k, ops, e1), t) == Read(Run(k, ops, e2), t)
      {
        if t !in o.outputs {
          assert MadeBy(ops[1..], t);
        }
      }
    }
  }
}
