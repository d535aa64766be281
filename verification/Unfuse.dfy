/** The unfuse rewriter (pipeline/apply_unfuse_hint.py): a fused op becomes its stages again.

    Only `sub_ops` is relied on. Tensors that lived inside the fused kernel are described anew when
    they are not registered, and dependencies are derived from producers instead of translated. */
module Unfuse {
  import opened Ir
  import opened Seqs
  import F = Fusion

  datatype UnfuseError =
    | UnknownId(id: int)
    | ListedTwice(id: int)
    | NotFused(id: int)
    | NotAChain(id: int, piece: nat)
    | RenamedOutput(id: int)
    | NoShape(id: int, piece: nat)
    | NoQuant(id: int, piece: nat)
    | UnknownOutputShape(id: int)
    | MissingDimension(id: int)
    | NoScale(id: int)
    | NoDtype(id: int)
    | ShapeClash(id: int)

  // ---------------------------------------------------------------- which ops can be unfused

  function FirstOutput(o: Op): Option<Name> {
    if o.outputs == [] then None else Some(o.outputs[0])
  }

  predicate FeedsNext(subs: seq<Op>, i: nat)
    requires i + 1 < |subs|
  {
    FirstOutput(subs[i]).Some? && FirstOutput(subs[i]).value in subs[i + 1].inputs
  }

  /** The first output of stage `i` is read by the next stage. */
  ghost predicate Linked(subs: seq<Op>, i: nat)
    requires i + 1 < |subs|
  {
    subs[i].outputs != [] && subs[i].outputs[0] in subs[i + 1].inputs
  }

  ghost predicate Chained(subs: seq<Op>) {
    forall i: nat :: i < |subs| - 1 ==> Linked(subs, i)
  }

  lemma FeedsIsLinked(subs: seq<Op>, i: nat)
    requires i + 1 < |subs|
    ensures FeedsNext(subs, i) <==> Linked(subs, i)
  {
  }

  /** Stages that form a chain ending in the op's own outputs, each complete enough to stand alone. */
  ghost predicate Unfusable(o: Op) {
    && |o.subOps| >= 2 && Chained(o.subOps) && o.subOps[|o.subOps| - 1].outputs == o.outputs
    && forall i :: 0 <= i < |o.subOps| ==> o.subOps[i].body.shape != map[] && o.subOps[i].body.quant != map[]
  }

  ghost predicate Explains(e: UnfuseError, o: Op, id: int) {
    match e
    case NotFused(x) => x == id && |o.subOps| < 2
    case NotAChain(x, i) => x == id && i + 1 < |o.subOps| && !Linked(o.subOps, i) && forall j: nat :: j < i ==> Linked(o.subOps, j)
    case RenamedOutput(x) => x == id && Chained(o.subOps) && o.subOps != [] && o.subOps[|o.subOps| - 1].outputs != o.outputs
    case NoShape(x, i) => x == id && i < |o.subOps| && o.subOps[i].body.shape == map[]
    case NoQuant(x, i) => x == id && i < |o.subOps| && o.subOps[i].body.quant == map[]
    case _ => false
  }

  method Validate(o: Op, id: int) returns (r: Option<UnfuseError>)
    ensures r.None? <==> Unfusable(o)
    ensures r.Some? ==> Explains(r.value, o, id)
  {
    var subs := o.subOps;
    if |subs| < 2 { return Some(NotFused(id)); }
    for i := 0 to |subs| - 1
      invariant forall j: nat :: j < i ==> Linked(subs, j)
    {
      FeedsIsLinked(subs, i);
      if !FeedsNext(subs, i) { return Some(NotAChain(id, i)); }
    }
    if subs[|subs| - 1].outputs != o.outputs { return Some(RenamedOutput(id)); }
    for i := 0 to |subs|
      invariant forall j :: 0 <= j < i ==> subs[j].body.shape != map[] && subs[j].body.quant != map[]
    {
      if subs[i].body.shape == map[] { return Some(NoShape(id, i)); }
      if subs[i].body.quant == map[] { return Some(NoQuant(id, i)); }
    }
    return None;
  }

  // ---------------------------------------------------------------- tensors that lived inside

  const SHAPE_PRESERVING := {
    "batchnorm2d_s8", "silu_s8", "relu_s8", "elu_s8", "sigmoid_s8", "leaky_relu_s8", "gelu_s8"
  }

  predicate EndsWith(s: string, suffix: string) {
    |suffix| <= |s| && s[|s| - |suffix|..] == suffix
  }

  function DtypeFor(kind: string): Option<string> {
    if EndsWith(kind, "_s8") then Some("i8")
    else if EndsWith(kind, "_f16") then Some("f16")
    else if EndsWith(kind, "_f32") then Some("f32")
    else None
  }

  function Dims(shape: map<string, int>, names: seq<string>): (r: Option<seq<int>>)
    ensures r.Some? <==> forall i :: 0 <= i < |names| ==> names[i] in shape
    ensures r.Some? ==> |r.value| == |names| && forall i :: 0 <= i < |names| ==> names[i] in shape && r.value[i] == shape[names[i]]
  {
    if names == [] then Some([])
    else
      var d := names[|names| - 1];
      match Dims(shape, names[..|names| - 1])
      case None => None
      case Some(r) => if d in shape then Some(r + [shape[d]]) else None
  }

  function ShapeFromOp(sub: Op, id: int): Result<seq<int>, UnfuseError> {
    if "conv2d" <= sub.body.kind || "linear" <= sub.body.kind then
      match Dims(sub.body.shape, if "conv2d" <= sub.body.kind then ["N", "OC", "OH", "OW"] else ["M", "N"])
      case Some(dims) => Ok(dims)
      case None => Err(MissingDimension(id))
    else Err(UnknownOutputShape(id))
  }

  function ScaleOf(sub: Op, consumer: Op): Option<real> {
    if "scale_in" in consumer.body.quant then Some(consumer.body.quant["scale_in"])
    else if "scale_out" in sub.body.quant then Some(sub.body.quant["scale_out"])
    else None
  }

  function InternalTensor(sub: Op, consumer: Op, fusedShape: seq<int>, id: int): Result<TensorMeta, UnfuseError> {
    var shape := if sub.body.kind in SHAPE_PRESERVING then Ok(fusedShape) else ShapeFromOp(sub, id);
    match shape
    case Err(e) => Err(e)
    case Ok(dims) =>
      match ScaleOf(sub, consumer)
      case None => Err(NoScale(id))
      case Some(scale) =>
        match DtypeFor(sub.body.kind)
        case None => Err(NoDtype(id))
        case Some(dtype) => Ok(TensorMeta(dims, dtype, Some(scale), ""))
  }

  type Tensors = map<Name, TensorMeta>

  /** Adds the description of a tensor nobody registered; a registered one must have that shape. */
  function Register(tensors: Tensors, name: Name, meta: TensorMeta, id: int): Result<Tensors, UnfuseError> {
    if name in tensors then
      if tensors[name].shape != [] && tensors[name].shape != meta.shape then Err(ShapeClash(id)) else Ok(tensors)
    else Ok(tensors[name := meta])
  }

  function ShapeOf(tensors: Tensors, t: Option<Name>): seq<int> {
    if t.Some? && t.value in tensors then tensors[t.value].shape else []
  }

  // ---------------------------------------------------------------- restoring the stages

  function RestoredOp(o: Op, did: int, j: nat, newId: int): Op
    requires j < |o.subOps|
  {
    var sub := o.subOps[j];
    sub.(id := Some(newId), deps := [],
         target := if sub.target.Some? then sub.target else Some(TargetOf(o)),
         origin := Piece(did, j, |o.subOps|, o.body.kind))
  }

  datatype Pass = Pass(ops: seq<Op>, tensors: Tensors, remap: map<int, seq<int>>, next: int)

  function RegisterPiece(tensors: Tensors, o: Op, did: int, fusedShape: seq<int>, j: nat): Result<Tensors, UnfuseError>
    requires j < |o.subOps|
  {
    if j + 1 < |o.subOps| && FirstOutput(o.subOps[j]).Some? then
      match InternalTensor(o.subOps[j], o.subOps[j + 1], fusedShape, did)
      case Err(e) => Err(e)
      case Ok(meta) => Register(tensors, FirstOutput(o.subOps[j]).value, meta, did)
    else Ok(tensors)
  }

  /** The first `j` stages of an op restored. */
  function Pieces(s: Pass, o: Op, did: int, fusedShape: seq<int>, j: nat): Result<Pass, UnfuseError>
    requires j <= |o.subOps|
  {
    if j == 0 then Ok(s)
    else
      match Pieces(s, o, did, fusedShape, j - 1)
      case Err(e) => Err(e)
      case Ok(p) =>
        match RegisterPiece(p.tensors, o, did, fusedShape, j - 1)
        case Err(e) => Err(e)
        case Ok(tensors) => Ok(Pass(p.ops + [RestoredOp(o, did, j - 1, p.next)], tensors, p.remap, p.next + 1))
  }

  lemma {:induction false} PiecesRestore(s: Pass, o: Op, did: int, fusedShape: seq<int>, j: nat) returns (restored: seq<Op>)
    requires j <= |o.subOps| && Pieces(s, o, did, fusedShape, j).Ok?
    ensures Pieces(s, o, did, fusedShape, j).value.ops == s.ops + restored
    ensures |restored| == j && Pieces(s, o, did, fusedShape, j).value.next == s.next + j
    ensures forall i :: 0 <= i < j ==> restored[i] == RestoredOp(o, did, i, s.next + i)
  {
    hide RestoredOp, RegisterPiece;
    if j == 0 {
      restored := [];
    } else {
      var r := PiecesRestore(s, o, did, fusedShape, j - 1);
      restored := r + [RestoredOp(o, did, j - 1, s.next + (j - 1))];
    }
  }

  function Step(s: Pass, o: Op, targets: set<int>): Result<Pass, UnfuseError> {
    if o.id.None? then Ok(s.(ops := s.ops + [o]))
    else if o.id.value !in targets then
      Ok(Pass(s.ops + [o.(id := Some(s.next))], s.tensors, s.remap[o.id.value := [s.next]], s.next + 1))
    else
      match Pieces(s, o, o.id.value, ShapeOf(s.tensors, FirstOutput(o)), |o.subOps|)
      case Err(e) => Err(e)
      case Ok(p) => Ok(p.(remap := p.remap[o.id.value := IdRange(s.next, |o.subOps|)]))
  }

  function Steps(ops: seq<Op>, tensors: Tensors, targets: set<int>, k: nat): Result<Pass, UnfuseError>
    requires k <= |ops|
  {
    if k == 0 then Ok(Pass([], tensors, map[], 0))
    else
      match Steps(ops, tensors, targets, k - 1)
      case Err(e) => Err(e)
      case Ok(s) => Step(s, ops[k - 1], targets)
  }

  // ---------------------------------------------------------------- dependencies from producers

  function WrittenBy(producers: map<Name, int>, o: Op, n: nat): map<Name, int>
    requires n <= |o.outputs| && o.id.Some?
  {
    if n == 0 then producers else WrittenBy(producers, o, n - 1)[o.outputs[n - 1] := o.id.value]
  }

  /** The last dispatch to write each tensor. */
  function Producers(ops: seq<Op>): map<Name, int> {
    if ops == [] then map[]
    else
      var o, before := ops[|ops| - 1], Producers(ops[..|ops| - 1]);
      if o.id.None? then before else WrittenBy(before, o, |o.outputs|)
  }

  ghost predicate Increasing(s: seq<int>) {
    forall i, j :: 0 <= i < j < |s| ==> s[i] < s[j]
  }

  ghost predicate IsLeast(s: set<int>, m: int) {
    m in s && forall x :: x in s ==> m <= x
  }

  lemma HasLeast(s: set<int>)
    requires s != {}
    ensures exists m :: IsLeast(s, m)
  {
    F.HasMember(s);
    var x :| x in s;
    if s == {x} {
      assert IsLeast(s, x);
    } else {
      HasLeast(s - {x});
      var m :| IsLeast(s - {x}, m);
      assert forall y :: y in s ==> y == x || y in s - {x};
      assert IsLeast(s, if x < m then x else m);
    }
  }

  ghost function Sorted(s: set<int>): (r: seq<int>)
    ensures Increasing(r) && forall x :: x in r <==> x in s
  {
    if s == {} then []
    else
      HasLeast(s);
      var m :| IsLeast(s, m);
      var rest := Sorted(s - {m});
      assert forall i :: 0 <= i < |rest| ==> rest[i] in s - {m};
      [m] + rest
  }

  lemma NothingSorted()
    ensures Sorted({}) == []
  {
  }

  lemma SortedHead(s: set<int>, m: int)
    requires IsLeast(s, m)
    ensures Sorted(s) == [m] + Sorted(s - {m})
  {
    var n :| IsLeast(s, n) && Sorted(s) == [n] + Sorted(s - {n});
  }

  method SortIds(s: set<int>) returns (r: seq<int>)
    ensures r == Sorted(s)
  {
    hide Sorted;
    r := [];
    var todo := s;
    NothingSorted();
    while todo != {}
      invariant r + Sorted(todo) == Sorted(s)
    {
      var m := F.Least(todo);
      SortedHead(todo, m);
      r := r + [m];
      todo := todo - {m};
    }
  }

  function DepSet(o: Op, producers: map<Name, int>): set<int> {
    set t | t in o.inputs && t in producers && Some(producers[t]) != o.id :: producers[t]
  }

  ghost function Relinked(o: Op, producers: map<Name, int>): Op {
    if o.id.None? then o else o.(deps := Sorted(DepSet(o, producers)))
  }

  ghost function RelinkAll(ops: seq<Op>): (r: seq<Op>)
    ensures |r| == |ops|
  {
    seq(|ops|, i requires 0 <= i < |ops| => Relinked(ops[i], Producers(ops)))
  }

  // ---------------------------------------------------------------- the rewriter

  datatype Unfused = Unfused(ops: seq<Op>, tensors: Tensors, idRemap: Option<map<int, seq<int>>>)

  ghost predicate HintOk(hint: seq<int>, byId: map<int, Op>) {
    && (forall i :: 0 <= i < |hint| ==> hint[i] in byId && Unfusable(byId[hint[i]]))
    && Distinct(hint)
  }

  ghost predicate RefusedAt(hint: seq<int>, byId: map<int, Op>, i: nat, e: UnfuseError) {
    && i < |hint| && HintOk(hint[..i], byId)
    && match e
       case UnknownId(x) => x == hint[i] && x !in byId
       case ListedTwice(x) => x == hint[i] && x in hint[..i]
       case _ => hint[i] in byId && Explains(e, byId[hint[i]], hint[i])
  }

  ghost predicate Outcome(ops: seq<Op>, tensors: Tensors, hint: seq<int>, r: Result<Unfused, UnfuseError>) {
    var byId := F.ById(ops);
    if hint == [] then r == Ok(Unfused(ops, tensors, None))
    else if !HintOk(hint, byId) then r.Err? && exists i :: RefusedAt(hint, byId, i, r.error)
    else
      match Steps(ops, tensors, F.AsSet(hint), |ops|)
      case Err(e) => r == Err(e)
      case Ok(s) => r == Ok(Unfused(RelinkAll(s.ops), s.tensors, Some(s.remap)))
  }

  method ValidateAll(hint: seq<int>, byId: map<int, Op>) returns (r: Option<UnfuseError>)
    ensures r.None? <==> HintOk(hint, byId)
    ensures r.Some? ==> exists i :: RefusedAt(hint, byId, i, r.value)
  {
    hide Unfusable, Explains;
    for i := 0 to |hint|
      invariant HintOk(hint[..i], byId)
    {
      var id := hint[i];
      ghost var upto := hint[..i + 1];
      assert upto == hint[..i] + [id];
      if id !in byId {
        assert RefusedAt(hint, byId, i, UnknownId(id));
        return Some(UnknownId(id));
      }
      if id in hint[..i] {
        assert RefusedAt(hint, byId, i, ListedTwice(id));
        var j :| 0 <= j < i && hint[..i][j] == id;
        assert hint[j] == hint[i];
        return Some(ListedTwice(id));
      }
      var bad := Validate(byId[id], id);
      if bad.Some? {
        NeverAboutTheList(bad.value, byId[id], id);
        assert RefusedAt(hint, byId, i, bad.value);
        return Some(bad.value);
      }
    }
    assert hint[..|hint|] == hint;
    return None;
  }

  lemma NeverAboutTheList(e: UnfuseError, o: Op, id: int)
    requires Explains(e, o, id)
    ensures !e.UnknownId? && !e.ListedTwice?
  {
  }

  method RestorePieces(s0: Pass, o: Op, did: int) returns (r: Result<Pass, UnfuseError>)
    ensures r == Pieces(s0, o, did, ShapeOf(s0.tensors, FirstOutput(o)), |o.subOps|)
  {
    hide RestoredOp, RegisterPiece, ShapeOf, FirstOutput;
    var s := s0;
    var fusedShape := ShapeOf(s0.tensors, FirstOutput(o));
    for j := 0 to |o.subOps|
      invariant Pieces(s0, o, did, fusedShape, j) == Ok(s)
    {
      var tensors := RegisterPiece(s.tensors, o, did, fusedShape, j);
      if tensors.Err? {
        PiecesStayRefused(s0, o, did, fusedShape, j + 1);
        return Err(tensors.error);
      }
      s := Pass(s.ops + [RestoredOp(o, did, j, s.next)], tensors.value, s.remap, s.next + 1);
    }
    return Ok(s);
  }

  lemma {:induction false} PiecesStayRefused(s: Pass, o: Op, did: int, fusedShape: seq<int>, j: nat)
    requires j <= |o.subOps| && Pieces(s, o, did, fusedShape, j).Err?
    ensures Pieces(s, o, did, fusedShape, |o.subOps|) == Pieces(s, o, did, fusedShape, j)
    decreases |o.subOps| - j
  {
    if j < |o.subOps| {
      PiecesStayRefused(s, o, did, fusedShape, j + 1);
    }
  }

  method RestoreAll(ops: seq<Op>, tensors: Tensors, targets: set<int>) returns (r: Result<Pass, UnfuseError>)
    ensures r == Steps(ops, tensors, targets, |ops|)
  {
    var s := Pass([], tensors, map[], 0);
    for k := 0 to |ops|
      invariant Steps(ops, tensors, targets, k) == Ok(s)
    {
      var o := ops[k];
      if o.id.None? {
        s := s.(ops := s.ops + [o]);
      } else if o.id.value !in targets {
        s := Pass(s.ops + [o.(id := Some(s.next))], s.tensors, s.remap[o.id.value := [s.next]], s.next + 1);
      } else {
        var p := RestorePieces(s, o, o.id.value);
        if p.Err? {
          StepsStayRefused(ops, tensors, targets, k + 1);
          return Err(p.error);
        }
        s := p.value.(remap := p.value.remap[o.id.value := IdRange(s.next, |o.subOps|)]);
      }
    }
    return Ok(s);
  }

  lemma {:induction false} StepsStayRefused(ops: seq<Op>, tensors: Tensors, targets: set<int>, k: nat)
    requires k <= |ops| && Steps(ops, tensors, targets, k).Err?
    ensures Steps(ops, tensors, targets, |ops|) == Steps(ops, tensors, targets, k)
    decreases |ops| - k
  {
    if k < |ops| {
      StepsStayRefused(ops, tensors, targets, k + 1);
    }
  }

  method IndexProducers(ops: seq<Op>) returns (producers: map<Name, int>)
    ensures producers == Producers(ops)
  {
    producers := map[];
    for i := 0 to |ops|
      invariant producers == Producers(ops[..i])
    {
      ghost var before := producers;
      var o := ops[i];
      assert ops[..i + 1][..i] == ops[..i];
      if o.id.Some? {
        for n := 0 to |o.outputs|
          invariant producers == WrittenBy(before, o, n)
        {
          producers := producers[o.outputs[n] := o.id.value];
        }
      }
    }
    assert ops[..|ops|] == ops;
  }

  method Relink(ops: seq<Op>) returns (linked: seq<Op>)
    ensures linked == RelinkAll(ops)
  {
    var producers := IndexProducers(ops);
    linked := [];
    for i := 0 to |ops|
      invariant |linked| == i && forall j :: 0 <= j < i ==> linked[j] == Relinked(ops[j], producers)
    {
      var o := ops[i];
      if o.id.Some? {
        var deps := SortIds(DepSet(o, producers));
        o := o.(deps := deps);
      }
      linked := linked + [o];
    }
  }

  method ApplyUnfuse(ops: seq<Op>, tensors: Tensors, hint: seq<int>) returns (r: Result<Unfused, UnfuseError>)
    ensures Outcome(ops, tensors, hint, r)
  {
    hide Steps, RelinkAll, RefusedAt, HintOk;
    if hint == [] { return Ok(Unfused(ops, tensors, None)); }
    var byId := F.ById(ops);
    var bad := ValidateAll(hint, byId);
    if bad.Some? { return Err(bad.value); }
    var s := RestoreAll(ops, tensors, F.AsSet(hint));
    if s.Err? { return Err(s.error); }
    var linked := Relink(s.value.ops);
    return Ok(Unfused(linked, s.value.tensors, Some(s.value.remap)));
  }
}
