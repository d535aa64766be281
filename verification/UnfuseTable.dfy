/** The tensor table and the dependencies that unfusing leaves (pipeline/apply_unfuse_hint.py): what one
    restored stage hands to the next is described by the stage that makes it, nothing that was registered
    changes, and an op depends on whoever wrote what it reads last. */
module UnfuseTable {
  import opened Ir
  import opened Unfuse
  import F = Fusion

  // ---------------------------------------------------------------- what a description should say

  /** An elementwise stage makes what the whole op makes; a convolution or linear layer says its sizes. */
  predicate GivenShape(sub: Op, fusedShape: seq<int>, shape: seq<int>) {
    var s := sub.body.shape;
    if sub.body.kind in SHAPE_PRESERVING then shape == fusedShape
    else if "conv2d" <= sub.body.kind then
      "N" in s && "OC" in s && "OH" in s && "OW" in s && shape == [s["N"], s["OC"], s["OH"], s["OW"]]
    else "linear" <= sub.body.kind && "M" in s && "N" in s && shape == [s["M"], s["N"]]
  }

  /** The kind's last part names the type. */
  predicate GivenDtype(kind: string, dtype: string) {
    || (EndsWith(kind, "_s8") && dtype == "i8")
    || (EndsWith(kind, "_f16") && dtype == "f16")
    || (EndsWith(kind, "_f32") && dtype == "f32")
  }

  /** The scale the reader expects, or else the one the maker says. */
  predicate GivenScale(sub: Op, consumer: Op, quant: Option<real>) {
    if "scale_in" in consumer.body.quant then quant == Some(consumer.body.quant["scale_in"])
    else "scale_out" in sub.body.quant && quant == Some(sub.body.quant["scale_out"])
  }

  predicate Described(sub: Op, consumer: Op, fusedShape: seq<int>, meta: TensorMeta) {
    GivenShape(sub, fusedShape, meta.shape) && GivenDtype(sub.body.kind, meta.dtype) && GivenScale(sub, consumer, meta.quant) && meta.const_ == ""
  }

  lemma ConvIsNotLinear(kind: string)
    ensures !("conv2d" <= kind && "linear" <= kind)
  {
    assert "conv2d"[0] == 'c' && "linear"[0] == 'l';
    assert "conv2d" <= kind ==> kind[0] == "conv2d"[0];
    assert "linear" <= kind ==> kind[0] == "linear"[0];
  }

  lemma InternalIsDescribed(sub: Op, consumer: Op, fusedShape: seq<int>, id: int)
    requires InternalTensor(sub, consumer, fusedShape, id).Ok?
    ensures Described(sub, consumer, fusedShape, InternalTensor(sub, consumer, fusedShape, id).value)
  {
    ConvIsNotLinear(sub.body.kind);
    var s := sub.body.shape;
    if sub.body.kind !in SHAPE_PRESERVING {
      var names := if "conv2d" <= sub.body.kind then ["N", "OC", "OH", "OW"] else ["M", "N"];
      var dims := Dims(s, names);
      assert dims.Some? && forall i :: 0 <= i < |names| ==> names[i] in s && dims.value[i] == s[names[i]];
      if "conv2d" <= sub.body.kind {
        assert names[0] == "N" && names[1] == "OC" && names[2] == "OH" && names[3] == "OW";
      } else {
        assert names[0] == "M" && names[1] == "N";
      }
    }
  }

  // ---------------------------------------------------------------- what is handed on

  /** Stage `i` of the op at `j`, which is restored, hands `name` to the stage behind it. */
  ghost predicate Hands(ops: seq<Op>, targets: set<int>, j: nat, i: nat, name: Name) {
    && j < |ops| && ops[j].id.Some? && ops[j].id.value in targets
    && i + 1 < |ops[j].subOps| && FirstOutput(ops[j].subOps[i]) == Some(name)
  }

  predicate Earlier(j1: nat, i1: nat, j2: nat, i2: nat) { j1 < j2 || (j1 == j2 && i1 < i2) }

  ghost predicate HandedBefore(ops: seq<Op>, targets: set<int>, j: nat, i: nat, name: Name) {
    exists j1: nat, i1: nat :: Earlier(j1, i1, j, i) && Hands(ops, targets, j1, i1, name)
  }

  /** The op's own tensor is registered. */
  predicate OutputListed(tensors: Tensors, o: Op) { FirstOutput(o).Some? && FirstOutput(o).value in tensors }

  /** What the table should say of `name`: a registered shape is kept, and must be what the stage makes;
      what nobody registered before is described by the first stage that hands it on. */
  ghost predicate RightFor(ops: seq<Op>, tensors: Tensors, targets: set<int>, table: Tensors, j: nat, i: nat, name: Name)
    requires Hands(ops, targets, j, i, name)
  {
    var sub, consumer := ops[j].subOps[i], ops[j].subOps[i + 1];
    && name in table
    && (OutputListed(tensors, ops[j]) ==>
          var whole := ShapeOf(tensors, FirstOutput(ops[j]));
          && (table[name].shape == [] || GivenShape(sub, whole, table[name].shape))
          && (name !in tensors && !HandedBefore(ops, targets, j, i, name) ==> Described(sub, consumer, whole, table[name])))
  }

  /** The table when the stages before stage `m` of the op at `k` are restored. */
  ghost predicate TableRight(ops: seq<Op>, tensors: Tensors, targets: set<int>, k: nat, m: nat, table: Tensors) {
    && (forall x :: x in tensors ==> x in table && table[x] == tensors[x])
    && (forall x :: x in table && x !in tensors ==> HandedBefore(ops, targets, k, m, x))
    && (forall j: nat, i: nat, x :: Earlier(j, i, k, m) && Hands(ops, targets, j, i, x) ==> RightFor(ops, tensors, targets, table, j, i, x))
  }

  // ---------------------------------------------------------------- one stage

  /** Registering one tensor changes no other. */
  lemma RegisterAdds(tensors: Tensors, name: Name, meta: TensorMeta, id: int)
    requires Register(tensors, name, meta, id).Ok?
    ensures var after := Register(tensors, name, meta, id).value;
      && name in after && (forall x :: x in after <==> x in tensors || x == name)
      && (forall x :: x in tensors ==> after[x] == tensors[x])
      && (name !in tensors ==> after[name] == meta)
      && (after[name].shape == [] || after[name].shape == meta.shape)
  {
  }

  lemma StillRight(ops: seq<Op>, tensors: Tensors, targets: set<int>, table: Tensors, after: Tensors, j: nat, i: nat, x: Name)
    requires Hands(ops, targets, j, i, x) && RightFor(ops, tensors, targets, table, j, i, x)
    requires forall y :: y in table ==> y in after && after[y] == table[y]
    ensures RightFor(ops, tensors, targets, after, j, i, x)
  {
    hide Described, GivenShape, HandedBefore;
  }

  /** The next stage hands nothing on, or what it hands on is now described. */
  lemma NextStage(ops: seq<Op>, tensors: Tensors, targets: set<int>, k: nat, m: nat, did: int, fusedShape: seq<int>, table: Tensors)
    requires k < |ops| && ops[k].id.Some? && ops[k].id.value in targets && m < |ops[k].subOps| && TableRight(ops, tensors, targets, k, m, table)
    requires OutputListed(tensors, ops[k]) ==> fusedShape == ShapeOf(tensors, FirstOutput(ops[k]))
    requires RegisterPiece(table, ops[k], did, fusedShape, m).Ok?
    ensures TableRight(ops, tensors, targets, k, m + 1, RegisterPiece(table, ops[k], did, fusedShape, m).value)
  {
    var o, after := ops[k], RegisterPiece(table, ops[k], did, fusedShape, m).value;
    if m + 1 < |o.subOps| && FirstOutput(o.subOps[m]).Some? {
      var name := FirstOutput(o.subOps[m]).value;
      InternalIsDescribed(o.subOps[m], o.subOps[m + 1], fusedShape, did);
      var meta := InternalTensor(o.subOps[m], o.subOps[m + 1], fusedShape, did).value;
      assert Register(table, name, meta, did) == Ok(after);
      RegisterAdds(table, name, meta, did);
      assert Hands(ops, targets, k, m, name);
      hide InternalTensor, Register, GivenDtype, GivenScale, GivenShape, FirstOutput, OutputListed;
      NameIsRight(ops, tensors, targets, k, m, fusedShape, table, after, name, meta);
      OneStageOn(ops, tensors, targets, k, m, table, after);
    } else {
      OneStageOn(ops, tensors, targets, k, m, table, after);
    }
  }

  lemma NameIsRight(ops: seq<Op>, tensors: Tensors, targets: set<int>, k: nat, m: nat, fusedShape: seq<int>, table: Tensors, after: Tensors,
                    name: Name, meta: TensorMeta)
    requires TableRight(ops, tensors, targets, k, m, table) && Hands(ops, targets, k, m, name)
    requires OutputListed(tensors, ops[k]) ==> fusedShape == ShapeOf(tensors, FirstOutput(ops[k]))
    requires Described(ops[k].subOps[m], ops[k].subOps[m + 1], fusedShape, meta) && name in after
    requires (name !in table ==> after[name] == meta) && (after[name].shape == [] || after[name].shape == meta.shape)
    ensures RightFor(ops, tensors, targets, after, k, m, name)
  {
    hide GivenShape, GivenDtype, GivenScale, OutputListed, RightFor, Hands;
    assert name in table && name !in tensors ==> HandedBefore(ops, targets, k, m, name);
    hide HandedBefore, TableRight;
    RightForIs(ops, tensors, targets, after, k, m, name);
  }

  lemma RightForIs(ops: seq<Op>, tensors: Tensors, targets: set<int>, table: Tensors, j: nat, i: nat, name: Name)
    requires Hands(ops, targets, j, i, name)
    ensures j < |ops| && i + 1 < |ops[j].subOps|
    ensures RightFor(ops, tensors, targets, table, j, i, name) <==>
      && name in table
      && (OutputListed(tensors, ops[j]) ==>
            && (table[name].shape == [] || GivenShape(ops[j].subOps[i], ShapeOf(tensors, FirstOutput(ops[j])), table[name].shape))
            && (name !in tensors && !HandedBefore(ops, targets, j, i, name) ==>
                  Described(ops[j].subOps[i], ops[j].subOps[i + 1], ShapeOf(tensors, FirstOutput(ops[j])), table[name])))
  {
    hide GivenShape, Described, OutputListed, HandedBefore;
  }

  /** Moving on by one stage: new is at most what this stage hands on. */
  lemma OneStageOn(ops: seq<Op>, tensors: Tensors, targets: set<int>, k: nat, m: nat, table: Tensors, after: Tensors)
    requires k < |ops| && TableRight(ops, tensors, targets, k, m, table)
    requires forall x :: x in table ==> x in after && after[x] == table[x]
    requires forall x :: x in after && x !in table ==> Hands(ops, targets, k, m, x)
    requires forall x :: Hands(ops, targets, k, m, x) ==> RightFor(ops, tensors, targets, after, k, m, x)
    ensures TableRight(ops, tensors, targets, k, m + 1, after)
  {
    hide RightFor, Hands;
    forall x | x in after && x !in tensors
      ensures HandedBefore(ops, targets, k, m + 1, x)
    {
      if x in table {
        var j1: nat, i1: nat :| Earlier(j1, i1, k, m) && Hands(ops, targets, j1, i1, x);
        assert Earlier(j1, i1, k, m + 1);
      } else {
        assert Earlier(k, m, k, m + 1);
      }
    }
    forall j: nat, i: nat, x | Earlier(j, i, k, m + 1) && Hands(ops, targets, j, i, x)
      ensures RightFor(ops, tensors, targets, after, j, i, x)
    {
      if Earlier(j, i, k, m) {
        StillRight(ops, tensors, targets, table, after, j, i, x);
      }
    }
  }

  // ---------------------------------------------------------------- all stages, all ops

  lemma {:induction false} PiecesTable(ops: seq<Op>, tensors: Tensors, targets: set<int>, k: nat, s: Pass, did: int, fusedShape: seq<int>, m: nat)
    requires k < |ops| && ops[k].id.Some? && ops[k].id.value in targets && m <= |ops[k].subOps| && TableRight(ops, tensors, targets, k, 0, s.tensors)
    requires OutputListed(tensors, ops[k]) ==> fusedShape == ShapeOf(tensors, FirstOutput(ops[k]))
    requires Pieces(s, ops[k], did, fusedShape, m).Ok?
    ensures TableRight(ops, tensors, targets, k, m, Pieces(s, ops[k], did, fusedShape, m).value.tensors)
  {
    hide TableRight, RegisterPiece, RestoredOp, OutputListed;
    if m > 0 {
      PiecesTable(ops, tensors, targets, k, s, did, fusedShape, m - 1);
      NextStage(ops, tensors, targets, k, m - 1, did, fusedShape, Pieces(s, ops[k], did, fusedShape, m - 1).value.tensors);
    }
  }

  /** Behind its last stage an op hands nothing on. */
  lemma NextOp(ops: seq<Op>, tensors: Tensors, targets: set<int>, k: nat, m: nat, table: Tensors)
    requires k < |ops| && TableRight(ops, tensors, targets, k, m, table)
    requires ops[k].id.Some? && ops[k].id.value in targets ==> m >= |ops[k].subOps|
    ensures TableRight(ops, tensors, targets, k + 1, 0, table)
  {
    hide RightFor, FirstOutput;
    forall j: nat, i: nat, x | Hands(ops, targets, j, i, x)
      ensures Earlier(j, i, k + 1, 0) ==> Earlier(j, i, k, m)
    {
    }
    forall x | x in table && x !in tensors
      ensures HandedBefore(ops, targets, k + 1, 0, x)
    {
      var j1: nat, i1: nat :| Earlier(j1, i1, k, m) && Hands(ops, targets, j1, i1, x);
      assert Earlier(j1, i1, k + 1, 0);
    }
  }

  lemma WholeShape(ops: seq<Op>, tensors: Tensors, targets: set<int>, k: nat, table: Tensors)
    requires k < |ops| && TableRight(ops, tensors, targets, k, 0, table) && OutputListed(tensors, ops[k])
    ensures ShapeOf(table, FirstOutput(ops[k])) == ShapeOf(tensors, FirstOutput(ops[k]))
  {
    hide RightFor, HandedBefore, Hands;
  }

  lemma {:induction false} StepsTable(ops: seq<Op>, tensors: Tensors, targets: set<int>, k: nat)
    requires k <= |ops| && Steps(ops, tensors, targets, k).Ok?
    ensures TableRight(ops, tensors, targets, k, 0, Steps(ops, tensors, targets, k).value.tensors)
  {
    hide TableRight, Pieces, OutputListed, ShapeOf;
    if k == 0 {
      NothingYet(ops, tensors, targets);
    } else {
      StepsTable(ops, tensors, targets, k - 1);
      var s, o := Steps(ops, tensors, targets, k - 1).value, ops[k - 1];
      if o.id.Some? && o.id.value in targets {
        var whole := ShapeOf(s.tensors, FirstOutput(o));
        if OutputListed(tensors, o) {
          WholeShape(ops, tensors, targets, k - 1, s.tensors);
        }
        PiecesTable(ops, tensors, targets, k - 1, s, o.id.value, whole, |o.subOps|);
        NextOp(ops, tensors, targets, k - 1, |o.subOps|, Pieces(s, o, o.id.value, whole, |o.subOps|).value.tensors);
      } else {
        NextOp(ops, tensors, targets, k - 1, 0, s.tensors);
      }
    }
  }

  lemma NothingYet(ops: seq<Op>, tensors: Tensors, targets: set<int>)
    ensures TableRight(ops, tensors, targets, 0, 0, tensors)
  {
  }

  /** After unfusing: what was registered is as it was, what is new was handed from a restored stage to the
      next, and everything handed on is in the table as its maker's entries say. */
  lemma TableIsRight(ops: seq<Op>, tensors: Tensors, hint: seq<int>, r: Unfused)
    requires hint != [] && Outcome(ops, tensors, hint, Ok(r))
    ensures TableRight(ops, tensors, F.AsSet(hint), |ops|, 0, r.tensors)
  {
    hide TableRight, Steps, RelinkAll, HintOk;
    StepsTable(ops, tensors, F.AsSet(hint), |ops|);
  }

  // ---------------------------------------------------------------- dependencies

  /** Dispatch `j` is the last one to write `t`. */
  ghost predicate LastWriter(ops: seq<Op>, t: Name, j: nat) {
    && j < |ops| && ops[j].id.Some? && t in ops[j].outputs
    && forall l :: j < l < |ops| && ops[l].id.Some? ==> t !in ops[l].outputs
  }

  lemma {:induction false} WritesOutputs(before: map<Name, int>, o: Op, n: nat, t: Name)
    requires o.id.Some? && n <= |o.outputs|
    ensures t in o.outputs[..n] ==> t in WrittenBy(before, o, n) && WrittenBy(before, o, n)[t] == o.id.value
    ensures t !in o.outputs[..n] ==> (t in WrittenBy(before, o, n) <==> t in before) && (t in before ==> WrittenBy(before, o, n)[t] == before[t])
  {
    if n > 0 {
      WritesOutputs(before, o, n - 1, t);
      assert o.outputs[..n] == o.outputs[..n - 1] + [o.outputs[n - 1]];
    }
  }

  lemma {:induction false} ProducersAreLast(ops: seq<Op>, t: Name)
    ensures t in Producers(ops) <==> exists j: nat :: LastWriter(ops, t, j)
    ensures forall j: nat :: LastWriter(ops, t, j) ==> t in Producers(ops) && Producers(ops)[t] == ops[j].id.value
  {
    if ops != [] {
      var n: nat := |ops| - 1;
      var init, o := ops[..n], ops[n];
      ProducersAreLast(init, t);
      if o.id.Some? {
        WritesOutputs(Producers(init), o, |o.outputs|, t);
        assert o.outputs[..|o.outputs|] == o.outputs;
      }
      if o.id.Some? && t in o.outputs {
        assert LastWriter(ops, t, n);
      } else {
        forall j: nat
          ensures LastWriter(ops, t, j) <==> LastWriter(init, t, j)
        {
        }
      }
    }
  }

  /** Dispatch `d`, another than the reader, wrote something last that op `i` reads. */
  ghost predicate ReadsLastOf(ops: seq<Op>, i: nat, d: int)
    requires i < |ops|
  {
    ops[i].id != Some(d) && exists t, j: nat :: t in ops[i].inputs && LastWriter(ops, t, j) && ops[j].id == Some(d)
  }

  /** After relinking an op depends on exactly the other ops that wrote something it reads last, each named
      once and in increasing order; views depend on what they did. */
  lemma DependsIff(ops: seq<Op>, i: nat, d: int)
    requires i < |ops|
    ensures ops[i].id.Some? ==> (d in RelinkAll(ops)[i].deps <==> ReadsLastOf(ops, i, d)) && Increasing(RelinkAll(ops)[i].deps)
    ensures ops[i].id.None? ==> RelinkAll(ops)[i] == ops[i]
  {
    hide Producers, LastWriter;
    forall t | t in ops[i].inputs
      ensures t in Producers(ops) <==> exists j: nat :: LastWriter(ops, t, j)
      ensures forall j: nat :: LastWriter(ops, t, j) ==> j < |ops| && t in Producers(ops) && Some(Producers(ops)[t]) == ops[j].id
    {
      ProducersAreLast(ops, t);
      WriterIsDispatch(ops, t);
    }
  }

  lemma WriterIsDispatch(ops: seq<Op>, t: Name)
    ensures forall j: nat :: LastWriter(ops, t, j) ==> j < |ops| && ops[j].id.Some?
  {
  }
}
