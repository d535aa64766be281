/** The split rewriter (pipeline/apply_split_hint.py): one op becomes tiles along an output axis.

    Tiles takes care of what a tile computes; here are the tiles as ops, the tensors registered for
    them, the renumbering and the rewired dependencies. */
module Split {
  import opened Ir
  import opened Seqs
  import opened Names
  import F = Fusion
  import FR = FusionRewrite

  datatype SplitError =
    | UnknownId(id: int)
    | NotSplittable(id: int)
    | TooFewTiles(n: int)
    | NoDimension(id: int)
    | Indivisible(id: int)
    | NoOutput(id: int)
    | NoConv(id: int)
    | NoChannels(id: int)

  type Tensors = map<Name, TensorMeta>

  // ---------------------------------------------------------------- tiles of a plain op

  /** Tile `t` of `n` of an op split along shape entry `dim`. */
  function PlainTile(o: Op, id: int, n: nat, dim: string, width: int, t: nat): Op
    requires o.outputs != []
  {
    o.(name := TileName(o.name, t),
       body := o.body.(shape := o.body.shape[dim := width]),
       outputs := [TileName(o.outputs[0], t)],
       origin := Tile(id, t, n, width, t * width))
  }

  function PlainTiles(o: Op, id: int, n: nat, dim: string): Result<seq<Op>, SplitError>
    requires n >= 2
  {
    if dim !in o.body.shape then Err(NoDimension(id))
    else if o.body.shape[dim] % n != 0 then Err(Indivisible(id))
    else if o.outputs == [] then Err(NoOutput(id))
    else Ok(AllPlainTiles(o, id, n, dim, o.body.shape[dim] / n))
  }

  function AllPlainTiles(o: Op, id: int, n: nat, dim: string, width: int): (r: seq<Op>)
    requires o.outputs != []
    ensures |r| == n && forall t :: 0 <= t < n ==> r[t] == PlainTile(o, id, n, dim, width, t)
  {
    seq(n, t requires 0 <= t < n => PlainTile(o, id, n, dim, width, t))
  }

  method SplitPlain(o: Op, id: int, n: nat, dim: string) returns (r: Result<seq<Op>, SplitError>)
    requires n >= 2
    ensures r == PlainTiles(o, id, n, dim)
  {
    if dim !in o.body.shape { return Err(NoDimension(id)); }
    var total := o.body.shape[dim];
    if total % n != 0 { return Err(Indivisible(id)); }
    var width := total / n;
    if o.outputs == [] { return Err(NoOutput(id)); }
    var tiles: seq<Op> := [];
    for t := 0 to n
      invariant |tiles| == t && forall i :: 0 <= i < t ==> tiles[i] == PlainTile(o, id, n, dim, width, i)
    {
      tiles := tiles + [PlainTile(o, id, n, dim, width, t)];
    }
    assert tiles == AllPlainTiles(o, id, n, dim, width);
    return Ok(tiles);
  }

  // ---------------------------------------------------------------- tiles of a fused convolution

  function Entry(shape: map<string, int>, key: string): int {
    if key in shape then shape[key] else -1
  }

  /** Narrows the channel count of a stage where it can be verified: a channel entry that reads the
      full count, or a flat element count it divides. */
  function NarrowShape(shape: map<string, int>, full: int, width: int, id: int): Result<map<string, int>, SplitError> {
    if Entry(shape, "OC") == full then Ok(shape["OC" := width])
    else if Entry(shape, "C") == full then Ok(shape["C" := width])
    else if Entry(shape, "n") > 0 then
      if full == 0 then Err(NoChannels(id))
      else if shape["n"] % full == 0 then Ok(shape["n" := shape["n"] / full * width])
      else Ok(shape)
    else Ok(shape)
  }

  function Inside(subs: seq<Op>): set<Name> {
    set o, t | o in subs && t in o.outputs :: t
  }

  function Renamed(names: seq<Name>, inside: set<Name>, t: nat): (r: seq<Name>)
    ensures |r| == |names|
  {
    seq(|names|, i requires 0 <= i < |names| => if names[i] in inside then TileName(names[i], t) else names[i])
  }

  function TiledStage(sub: Op, inside: set<Name>, full: int, width: int, id: int, t: nat): Result<Op, SplitError> {
    match NarrowShape(sub.body.shape, full, width, id)
    case Err(e) => Err(e)
    case Ok(shape) => Ok(sub.(inputs := Renamed(sub.inputs, inside, t), outputs := Renamed(sub.outputs, inside, t),
                              body := sub.body.(shape := shape)))
  }

  /** The first `k` stages of tile `t`. */
  function TiledStages(subs: seq<Op>, full: int, width: int, id: int, t: nat, k: nat): (r: Result<seq<Op>, SplitError>)
    requires k <= |subs|
    ensures r.Ok? ==> |r.value| == k && forall i :: 0 <= i < k ==> Ok(r.value[i]) == TiledStage(subs[i], Inside(subs), full, width, id, t)
    ensures r.Ok? <==> forall i :: 0 <= i < k ==> TiledStage(subs[i], Inside(subs), full, width, id, t).Ok?
  {
    if k == 0 then Ok([])
    else
      match TiledStages(subs, full, width, id, t, k - 1)
      case Err(e) => Err(e)
      case Ok(done) =>
        match TiledStage(subs[k - 1], Inside(subs), full, width, id, t)
        case Err(e) => Err(e)
        case Ok(sub) => Ok(done + [sub])
  }

  function FusedTile(o: Op, id: int, n: nat, full: int, width: int, t: nat): Result<Op, SplitError>
    requires o.outputs != []
  {
    match TiledStages(o.subOps, full, width, id, t, |o.subOps|)
    case Err(e) => Err(e)
    case Ok(subs) => Ok(o.(name := TileName(o.name, t), subOps := subs, outputs := [TileName(o.outputs[0], t)],
                           origin := Tile(id, t, n, width, t * width)))
  }

  function FusedTilesTo(o: Op, id: int, n: nat, full: int, width: int, k: nat): (r: Result<seq<Op>, SplitError>)
    requires o.outputs != []
    ensures r.Ok? ==> |r.value| == k && forall t :: 0 <= t < k ==> FusedTile(o, id, n, full, width, t) == Ok(r.value[t])
  {
    if k == 0 then Ok([])
    else
      match FusedTilesTo(o, id, n, full, width, k - 1)
      case Err(e) => Err(e)
      case Ok(done) =>
        match FusedTile(o, id, n, full, width, k - 1)
        case Err(e) => Err(e)
        case Ok(tile) => Ok(done + [tile])
  }

  /** The first stage that is a convolution and has a shape. */
  function ConvStage(subs: seq<Op>): (r: Option<Op>)
    ensures r.Some? ==> r.value in subs
  {
    if subs == [] then None
    else if "conv2d" <= subs[0].body.kind && subs[0].body.shape != map[] then Some(subs[0])
    else ConvStage(subs[1..])
  }

  function FusedTiles(o: Op, id: int, n: nat): Result<seq<Op>, SplitError>
    requires n >= 2
  {
    match ConvStage(o.subOps)
    case None => Err(NoConv(id))
    case Some(conv) =>
      if "OC" !in conv.body.shape then Err(NoDimension(id))
      else if conv.body.shape["OC"] % n != 0 then Err(Indivisible(id))
      else if o.outputs == [] then Err(NoOutput(id))
      else FusedTilesTo(o, id, n, conv.body.shape["OC"], conv.body.shape["OC"] / n, n)
  }

  method TileStages(subs: seq<Op>, inside: set<Name>, full: int, width: int, id: int, t: nat) returns (r: Result<seq<Op>, SplitError>)
    requires inside == Inside(subs)
    ensures r == TiledStages(subs, full, width, id, t, |subs|)
  {
    hide TiledStage;
    var done: seq<Op> := [];
    for i := 0 to |subs|
      invariant TiledStages(subs, full, width, id, t, i) == Ok(done)
    {
      var sub := TiledStage(subs[i], inside, full, width, id, t);
      if sub.Err? {
        StagesStayRefused(subs, full, width, id, t, i + 1);
        return Err(sub.error);
      }
      done := done + [sub.value];
    }
    return Ok(done);
  }

  lemma {:induction false} StagesStayRefused(subs: seq<Op>, full: int, width: int, id: int, t: nat, k: nat)
    requires k <= |subs| && TiledStages(subs, full, width, id, t, k).Err?
    ensures TiledStages(subs, full, width, id, t, |subs|) == TiledStages(subs, full, width, id, t, k)
    decreases |subs| - k
  {
    if k < |subs| {
      StagesStayRefused(subs, full, width, id, t, k + 1);
    }
  }

  lemma {:induction false} TilesStayRefused(o: Op, id: int, n: nat, full: int, width: int, k: nat)
    requires o.outputs != [] && k <= n && FusedTilesTo(o, id, n, full, width, k).Err?
    ensures FusedTilesTo(o, id, n, full, width, n) == FusedTilesTo(o, id, n, full, width, k)
    decreases n - k
  {
    hide FusedTile;
    if k < n {
      TilesStayRefused(o, id, n, full, width, k + 1);
    }
  }

  method SplitFused(o: Op, id: int, n: nat) returns (r: Result<seq<Op>, SplitError>)
    requires n >= 2
    ensures r == FusedTiles(o, id, n)
  {
    hide TiledStages;
    var conv := ConvStage(o.subOps);
    if conv.None? { return Err(NoConv(id)); }
    var shape := conv.value.body.shape;
    if "OC" !in shape { return Err(NoDimension(id)); }
    var full := shape["OC"];
    if full % n != 0 { return Err(Indivisible(id)); }
    var width := full / n;
    if o.outputs == [] { return Err(NoOutput(id)); }
    var inside := Inside(o.subOps);
    var tiles: seq<Op> := [];
    for t := 0 to n
      invariant FusedTilesTo(o, id, n, full, width, t) == Ok(tiles)
    {
      var subs := TileStages(o.subOps, inside, full, width, id, t);
      if subs.Err? {
        TilesStayRefused(o, id, n, full, width, t + 1);
        return Err(subs.error);
      }
      tiles := tiles + [o.(name := TileName(o.name, t), subOps := subs.value, outputs := [TileName(o.outputs[0], t)],
                           origin := Tile(id, t, n, width, t * width))];
    }
    return Ok(tiles);
  }

  // ---------------------------------------------------------------- which ops, which axis

  const FUSED_CONVS := {"conv2d_batchnorm2d_s8", "conv2d_batchnorm2d_silu_s8"}

  predicate Splittable(kind: string) {
    kind == "linear_s8" || kind == "conv2d_s8" || kind in FUSED_CONVS
  }

  function TilesOf(o: Op, id: int, n: nat): Result<seq<Op>, SplitError>
    requires n >= 2
  {
    if o.body.kind == "linear_s8" then PlainTiles(o, id, n, "N")
    else if o.body.kind == "conv2d_s8" then PlainTiles(o, id, n, "OC")
    else FusedTiles(o, id, n)
  }

  method SplitOp(o: Op, id: int, n: nat) returns (r: Result<seq<Op>, SplitError>)
    requires n >= 2
    ensures r == TilesOf(o, id, n)
  {
    if o.body.kind == "linear_s8" {
      r := SplitPlain(o, id, n, "N");
    } else if o.body.kind == "conv2d_s8" {
      r := SplitPlain(o, id, n, "OC");
    } else {
      r := SplitFused(o, id, n);
    }
  }

  // ---------------------------------------------------------------- tensors for the tiles

  function TileShape(shape: seq<int>, width: int, alongChannels: bool): seq<int>
    requires shape != []
  {
    if alongChannels && |shape| >= 4 then shape[1 := width] else shape[|shape| - 1 := width]
  }

  function RegisterTo(tensors: Tensors, name: Name, parent: TensorMeta, shape: seq<int>, k: nat): Tensors {
    if k == 0 then tensors
    else
      var before, tile := RegisterTo(tensors, name, parent, shape, k - 1), TileName(name, k - 1);
      if tile in before then before else before[tile := TensorMeta(shape, parent.dtype, parent.quant, "")]
  }

  function Register(tensors: Tensors, name: Name, n: nat, width: int, alongChannels: bool): Tensors {
    if name !in tensors || tensors[name].shape == [] then tensors
    else RegisterTo(tensors, name, tensors[name], TileShape(tensors[name].shape, width, alongChannels), n)
  }

  method RegisterTiles(tensors: Tensors, name: Name, n: nat, width: int, alongChannels: bool) returns (out: Tensors)
    ensures out == Register(tensors, name, n, width, alongChannels)
  {
    out := tensors;
    if name !in tensors || tensors[name].shape == [] { return; }
    var parent := tensors[name];
    var shape := TileShape(parent.shape, width, alongChannels);
    for t := 0 to n
      invariant out == RegisterTo(tensors, name, parent, shape, t)
    {
      var tile := TileName(name, t);
      if tile !in out {
        out := out[tile := TensorMeta(shape, parent.dtype, parent.quant, "")];
      }
    }
  }

  // ---------------------------------------------------------------- the rewriter

  /** An entry of the hint: which op, how many tiles. */
  type Spec = (int, int)

  datatype Pass = Pass(ops: seq<Op>, tensors: Tensors, remap: map<int, seq<int>>, next: nat)

  function Numbered(tiles: seq<Op>, next: nat): (r: seq<Op>)
    ensures |r| == |tiles| && forall i :: 0 <= i < |r| ==> r[i] == tiles[i].(id := Some(next + i))
  {
    seq(|tiles|, i requires 0 <= i < |tiles| => tiles[i].(id := Some(next + i)))
  }

  function WidthOf(tiles: seq<Op>): int {
    if tiles != [] && tiles[0].origin.Tile? then tiles[0].origin.width else 0
  }

  predicate Chosen(targets: map<int, int>, o: Op) {
    o.id.Some? && o.id.value in targets && targets[o.id.value] >= 2
  }

  function Step(s: Pass, o: Op, targets: map<int, int>): Result<Pass, SplitError> {
    if o.id.None? then Ok(s.(ops := s.ops + [o]))
    else if !Chosen(targets, o) then
      Ok(Pass(s.ops + [o.(id := Some(s.next))], s.tensors, s.remap[o.id.value := [s.next]], s.next + 1))
    else
      var n := targets[o.id.value];
      match TilesOf(o, o.id.value, n)
      case Err(e) => Err(e)
      case Ok(tiles) =>
        var tensors := if WidthOf(tiles) > 0 && o.outputs != []
                       then Register(s.tensors, o.outputs[0], n, WidthOf(tiles), o.body.kind != "linear_s8") else s.tensors;
        Ok(Pass(s.ops + Numbered(tiles, s.next), tensors, s.remap[o.id.value := IdRange(s.next, |tiles|)], s.next + |tiles|))
  }

  function Steps(ops: seq<Op>, tensors: Tensors, targets: map<int, int>, k: nat): Result<Pass, SplitError>
    requires k <= |ops|
  {
    if k == 0 then Ok(Pass([], tensors, map[], 0))
    else
      match Steps(ops, tensors, targets, k - 1)
      case Err(e) => Err(e)
      case Ok(s) => Step(s, ops[k - 1], targets)
  }

  /** All new ids of the dependencies, in order. */
  function Spread(deps: seq<int>, remap: map<int, seq<int>>): seq<int> {
    if deps == [] then []
    else
      var d := deps[|deps| - 1];
      Spread(deps[..|deps| - 1], remap) + if d in remap then remap[d] else []
  }

  function Rewired(o: Op, remap: map<int, seq<int>>): Op {
    if o.id.None? then o else o.(deps := FR.OrderedUnique(Spread(o.deps, remap)))
  }

  function RewireAll(ops: seq<Op>, remap: map<int, seq<int>>): (r: seq<Op>)
    ensures |r| == |ops| && forall i :: 0 <= i < |ops| ==> r[i] == Rewired(ops[i], remap)
  {
    seq(|ops|, i requires 0 <= i < |ops| => Rewired(ops[i], remap))
  }

  /** The tile counts asked for; the last entry for an op wins. */
  function Targets(hint: seq<Spec>): map<int, int> {
    if hint == [] then map[] else Targets(hint[..|hint| - 1])[hint[|hint| - 1].0 := hint[|hint| - 1].1]
  }

  function SpecError(spec: Spec, byId: map<int, Op>): Option<SplitError> {
    if spec.0 !in byId then Some(UnknownId(spec.0))
    else if !Splittable(byId[spec.0].body.kind) then Some(NotSplittable(spec.0))
    else if spec.1 < 2 then Some(TooFewTiles(spec.1))
    else None
  }

  function HintError(hint: seq<Spec>, byId: map<int, Op>): (r: Option<SplitError>)
    ensures r.None? <==> forall i :: 0 <= i < |hint| ==> SpecError(hint[i], byId).None?
  {
    if hint == [] then None
    else if HintError(hint[..|hint| - 1], byId).Some? then HintError(hint[..|hint| - 1], byId)
    else SpecError(hint[|hint| - 1], byId)
  }

  datatype Tiled = Tiled(ops: seq<Op>, tensors: Tensors, idRemap: Option<map<int, seq<int>>>)

  function Outcome(ops: seq<Op>, tensors: Tensors, hint: seq<Spec>): Result<Tiled, SplitError> {
    if hint == [] then Ok(Tiled(ops, tensors, None))
    else
      match HintError(hint, F.ById(ops))
      case Some(e) => Err(e)
      case None =>
        match Steps(ops, tensors, Targets(hint), |ops|)
        case Err(e) => Err(e)
        case Ok(s) => Ok(Tiled(RewireAll(s.ops, s.remap), s.tensors, Some(s.remap)))
  }

  method ValidateAll(hint: seq<Spec>, byId: map<int, Op>) returns (r: Option<SplitError>)
    ensures r == HintError(hint, byId)
  {
    for i := 0 to |hint|
      invariant HintError(hint[..i], byId) == None
    {
      assert hint[..i + 1][..i] == hint[..i];
      r := SpecError(hint[i], byId);
      if r.Some? {
        HintStaysRefused(hint, byId, i + 1);
        return;
      }
    }
    assert hint[..|hint|] == hint;
    return None;
  }

  lemma {:induction false} HintStaysRefused(hint: seq<Spec>, byId: map<int, Op>, k: nat)
    requires k <= |hint| && HintError(hint[..k], byId).Some?
    ensures HintError(hint, byId) == HintError(hint[..k], byId)
    decreases |hint| - k
  {
    if k < |hint| {
      assert hint[..k + 1][..k] == hint[..k];
      HintStaysRefused(hint, byId, k + 1);
    } else {
      assert hint[..k] == hint;
    }
  }

  lemma {:induction false} StepsStayRefused(ops: seq<Op>, tensors: Tensors, targets: map<int, int>, k: nat)
    requires k <= |ops| && Steps(ops, tensors, targets, k).Err?
    ensures Steps(ops, tensors, targets, |ops|) == Steps(ops, tensors, targets, k)
    decreases |ops| - k
  {
    if k < |ops| {
      StepsStayRefused(ops, tensors, targets, k + 1);
    }
  }

  method PlaceTiles(s: Pass, o: Op, n: nat) returns (r: Result<Pass, SplitError>)
    requires o.id.Some? && n >= 2
    ensures r == Step(s, o, map[o.id.value := n])
  {
    hide TilesOf, Register;
    var did := o.id.value;
    var split := SplitOp(o, did, n);
    if split.Err? { return Err(split.error); }
    var tiles := split.value;
    var tensors := s.tensors;
    if WidthOf(tiles) > 0 && o.outputs != [] {
      tensors := RegisterTiles(tensors, o.outputs[0], n, WidthOf(tiles), o.body.kind != "linear_s8");
    }
    var newOps, newIds, next := s.ops, [], s.next;
    for i := 0 to |tiles|
      invariant newOps == s.ops + Numbered(tiles, s.next)[..i]
      invariant newIds == IdRange(s.next, |tiles|)[..i]
      invariant next == s.next + i
    {
      newOps := newOps + [tiles[i].(id := Some(next))];
      newIds := newIds + [next];
      next := next + 1;
    }
    assert Numbered(tiles, s.next)[..|tiles|] == Numbered(tiles, s.next);
    assert IdRange(s.next, |tiles|)[..|tiles|] == IdRange(s.next, |tiles|);
    return Ok(Pass(newOps, tensors, s.remap[did := newIds], next));
  }

  lemma SameStep(s: Pass, o: Op, targets: map<int, int>)
    requires Chosen(targets, o)
    ensures Step(s, o, targets) == Step(s, o, map[o.id.value := targets[o.id.value]])
  {
    hide TilesOf, Register;
  }

  method TileAll(ops: seq<Op>, tensors: Tensors, targets: map<int, int>) returns (r: Result<Pass, SplitError>)
    ensures r == Steps(ops, tensors, targets, |ops|)
  {
    hide TilesOf, Register;
    var s := Pass([], tensors, map[], 0);
    for k := 0 to |ops|
      invariant Steps(ops, tensors, targets, k) == Ok(s)
    {
      var o := ops[k];
      if o.id.None? {
        s := s.(ops := s.ops + [o]);
      } else if Chosen(targets, o) {
        SameStep(s, o, targets);
        var t := PlaceTiles(s, o, targets[o.id.value]);
        if t.Err? {
          StepsStayRefused(ops, tensors, targets, k + 1);
          return Err(t.error);
        }
        s := t.value;
      } else {
        s := Pass(s.ops + [o.(id := Some(s.next))], s.tensors, s.remap[o.id.value := [s.next]], s.next + 1);
      }
    }
    return Ok(s);
  }

  method RewireTiles(ops: seq<Op>, remap: map<int, seq<int>>) returns (rewired: seq<Op>)
    ensures rewired == RewireAll(ops, remap)
  {
    rewired := [];
    for i := 0 to |ops|
      invariant |rewired| == i && forall j :: 0 <= j < i ==> rewired[j] == Rewired(ops[j], remap)
    {
      var o := ops[i];
      if o.id.Some? {
        var newDeps: seq<int> := [];
        for d := 0 to |o.deps|
          invariant newDeps == Spread(o.deps[..d], remap)
        {
          assert o.deps[..d + 1][..d] == o.deps[..d];
          if o.deps[d] in remap { newDeps := newDeps + remap[o.deps[d]]; }
        }
        assert o.deps[..|o.deps|] == o.deps;
        newDeps := FR.Unique(newDeps);
        o := o.(deps := newDeps);
      }
      rewired := rewired + [o];
    }
  }

  method ApplySplit(ops: seq<Op>, tensors: Tensors, hint: seq<Spec>) returns (r: Result<Tiled, SplitError>)
    ensures r == Outcome(ops, tensors, hint)
  {
    hide Steps, RewireAll;
    if hint == [] { return Ok(Tiled(ops, tensors, None)); }
    var bad := ValidateAll(hint, F.ById(ops));
    if bad.Some? { return Err(bad.value); }
    var targets: map<int, int> := map[];
    for i := 0 to |hint|
      invariant targets == Targets(hint[..i])
    {
      assert hint[..i + 1][..i] == hint[..i];
      targets := targets[hint[i].0 := hint[i].1];
    }
    assert hint[..|hint|] == hint;
    var s := TileAll(ops, tensors, targets);
    if s.Err? { return Err(s.error); }
    var rewired := RewireTiles(s.value.ops, s.value.remap);
    return Ok(Tiled(rewired, s.value.tensors, Some(s.value.remap)));
  }
}
