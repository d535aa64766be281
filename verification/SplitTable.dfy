/** The tensor table that splitting leaves (pipeline/apply_split_hint.py): every tile is registered with
    the sizes of the op that makes it, and nothing that was registered changes. */
module SplitTable {
  import opened Ir
  import opened Names
  import opened Shapes
  import opened Fusion
  import opened Renumbering
  import opened Schedules
  import T = Tiles
  import S = Split
  import SF = SplitFacts
  import opened SplitKernels
  import opened TileMeaning
  import opened SplitMeaning

  // ---------------------------------------------------------------- sizes

  /** The sizes of what an op makes, as its own shape entries have them: rows and features of a linear
      layer; images, channels, rows and columns of a convolution. */
  function SizesOf(o: Op): seq<int> {
    if o.body.kind == "linear_s8" then [Dim(o.body, "M"), Dim(o.body, "N")]
    else
      var body := if o.body.kind == "conv2d_s8" || o.subOps == [] then o.body else o.subOps[0].body;
      [Dim(body, "N"), Dim(body, "OC"), Dim(body, "OH"), Dim(body, "OW")]
  }

  lemma CountsOf(a: int, b: int, c: int, d: int)
    ensures Numel([a, b]) == a * b && Numel([a, b, c, d]) == a * b * c * d
  {
    assert [a][..0] == [] && [a, b][..1] == [a] && [a, b, c][..2] == [a, b] && [a, b, c, d][..3] == [a, b, c];
    assert Numel([a]) == a;
  }

  lemma CountIsGeometry(o: Op)
    ensures Numel(SizesOf(o)) == Geometry(o).0 * Geometry(o).1 * Geometry(o).2
  {
    CountsOf(SizesOf(o)[0], SizesOf(o)[1], if |SizesOf(o)| == 4 then SizesOf(o)[2] else 0, if |SizesOf(o)| == 4 then SizesOf(o)[3] else 0);
    hide Dim, Numel;
    if o.body.kind != "linear_s8" {
      var body := if o.body.kind == "conv2d_s8" || o.subOps == [] then o.body else o.subOps[0].body;
      Regrouped(Dim(body, "N"), Dim(body, "OC"), Dim(body, "OH"), Dim(body, "OW"));
    }
  }

  lemma Regrouped(a: int, b: int, c: int, d: int)
    ensures a * b * c * d == a * b * (c * d)
  {
  }

  // ---------------------------------------------------------------- registering the tiles of one op

  ghost predicate OneOfTiles(x: Name, name: Name, n: nat) {
    exists t: nat :: t < n && x == TileName(name, t)
  }

  lemma {:induction false} Registered(tensors: S.Tensors, name: Name, parent: TensorMeta, shape: seq<int>, n: nat, x: Name)
    ensures var after := S.RegisterTo(tensors, name, parent, shape, n);
      && (x in after <==> x in tensors || OneOfTiles(x, name, n))
      && (x in tensors ==> after[x] == tensors[x])
      && (x in after && x !in tensors ==> after[x] == TensorMeta(shape, parent.dtype, parent.quant, ""))
  {
    hide TileName;
    if n > 0 {
      Registered(tensors, name, parent, shape, n - 1, x);
      if OneOfTiles(x, name, n - 1) {
        var t: nat :| t < n - 1 && x == TileName(name, t);
        assert OneOfTiles(x, name, n);
      }
    }
  }

  // ---------------------------------------------------------------- all steps

  /** The op at `j` is split and its tensor is registered with its own sizes. */
  ghost predicate Listed(ops: seq<Op>, tensors: S.Tensors, targets: map<int, int>, j: nat) {
    && j < |ops| && S.Chosen(targets, ops[j]) && ops[j].outputs != []
    && ops[j].outputs[0] in tensors && tensors[ops[j].outputs[0]].shape == SizesOf(ops[j])
  }

  /** What a tile of `o` should be registered as. */
  ghost predicate RightEntry(tensors: S.Tensors, o: Op, tile: Op, entry: TensorMeta)
    requires o.outputs != [] && o.outputs[0] in tensors
  {
    entry == TensorMeta(SizesOf(tile), tensors[o.outputs[0]].dtype, tensors[o.outputs[0]].quant, "")
  }

  ghost predicate TilesListed(ops: seq<Op>, tensors: S.Tensors, targets: map<int, int>, table: S.Tensors, j: nat)
    requires Listed(ops, tensors, targets, j)
  {
    forall t: nat :: t < targets[ops[j].id.value] && TileName(ops[j].outputs[0], t) !in tensors && t < |PiecesOf(ops[j], targets)| ==>
      RightTile(tensors, ops[j], PiecesOf(ops[j], targets)[t], table, t)
  }

  ghost predicate RightTile(tensors: S.Tensors, o: Op, tile: Op, table: S.Tensors, t: nat)
    requires o.outputs != [] && o.outputs[0] in tensors
  {
    TileName(o.outputs[0], t) in table && RightEntry(tensors, o, tile, table[TileName(o.outputs[0], t)])
  }

  /** A chosen op is cut into its pieces. */
  ghost predicate Cut(o: Op, targets: map<int, int>) {
    S.Chosen(targets, o) ==> S.TilesOf(o, o.id.value, targets[o.id.value]) == Ok(PiecesOf(o, targets))
  }

  ghost predicate FromSplit(ops: seq<Op>, targets: map<int, int>, k: nat, x: Name) {
    exists j: nat, t: nat :: j < k && SplitName(ops, targets, j, t, x)
  }

  ghost predicate SplitName(ops: seq<Op>, targets: map<int, int>, j: nat, t: nat, x: Name) {
    j < |ops| && S.Chosen(targets, ops[j]) && ops[j].outputs != [] && x == TileName(ops[j].outputs[0], t)
  }

  ghost predicate TableRight(ops: seq<Op>, tensors: S.Tensors, targets: map<int, int>, k: nat, table: S.Tensors) {
    && (forall x :: x in tensors ==> x in table && table[x] == tensors[x])
    && (forall x :: x in table && x !in tensors ==> FromSplit(ops, targets, k, x))
    && (forall j: nat :: j < k && Listed(ops, tensors, targets, j) ==> TilesListed(ops, tensors, targets, table, j))
  }

  /** The list can be split: distinct ids, one maker per tensor, and what is split are layers. */
  ghost predicate Sane(sim: Simulator, ops: seq<Op>, targets: map<int, int>) {
    DistinctIds(ops) && SingleMaker(ops) && forall o :: o in ops && S.Chosen(targets, o) ==> Fits(sim, o)
  }

  /** Every tile has one width, which is the width the splitter recorded. */
  lemma RecordedWidth(sim: Simulator, o: Op, id: int, n: nat, tiles: seq<Op>, t: nat)
    requires Fits(sim, o) && n >= 2 && S.TilesOf(o, id, n) == Ok(tiles) && t < n
    ensures |tiles| == n && S.WidthOf(tiles) == Geometry(tiles[t]).1 > 0 && o.outputs != []
  {
    TileRecord(sim, o, id, n, tiles, t);
    TileRecord(sim, o, id, n, tiles, 1);
    var full := SF.TilesAre(o, id, n, tiles);
    assert SF.IsTile(o, id, n, full / n, tiles[0], 0) && SF.IsTile(o, id, n, full / n, tiles[1], 1);
    hide SF.IsTile, S.TilesOf, Fits, Geometry, TileName;
    assert OffsetOf(tiles[1]) == 1 * (full / n) by { OffsetIs(o, id, n, full / n, tiles[1], 1); }
    assert S.WidthOf(tiles) == full / n by { WidthIs(o, id, n, full / n, tiles); }
    SameWidth(Geometry(tiles[t]).1, Geometry(tiles[1]).1, n);
  }

  lemma OffsetIs(o: Op, id: int, n: nat, width: int, tile: Op, t: nat)
    requires SF.IsTile(o, id, n, width, tile, t)
    ensures OffsetOf(tile) == t * width && o.outputs != []
  {
    hide TileName;
  }

  lemma WidthIs(o: Op, id: int, n: nat, width: int, tiles: seq<Op>)
    requires tiles != [] && SF.IsTile(o, id, n, width, tiles[0], 0)
    ensures S.WidthOf(tiles) == width && o.outputs != []
  {
    hide TileName;
  }

  /** Narrowing the registered shape on the split axis gives the tile's own sizes. */
  lemma NarrowedSizes(o: Op, tile: Op)
    requires tile.body.kind == o.body.kind && |SizesOf(tile)| == |SizesOf(o)|
    requires SizesOf(tile) == SizesOf(o)[1 := SizesOf(tile)[1]]
    ensures S.TileShape(SizesOf(o), SizesOf(tile)[1], o.body.kind != "linear_s8") == SizesOf(tile)
  {
    hide Dim;
  }

  /** A tile keeps every size but that of the split axis. */
  lemma TileSizes(sim: Simulator, o: Op, id: int, n: nat, tiles: seq<Op>, t: nat)
    requires Fits(sim, o) && n >= 2 && S.TilesOf(o, id, n) == Ok(tiles) && t < n
    ensures |tiles| == n && tiles[t].body.kind == o.body.kind && |SizesOf(tiles[t])| == |SizesOf(o)| >= 2
    ensures SizesOf(tiles[t]) == SizesOf(o)[1 := Geometry(tiles[t]).1] && SizesOf(o)[1] == Geometry(o).1
  {
    if o.body.kind == "linear_s8" {
      var width := WidthOfPlain(o, id, n, "N", tiles, t);
      PlainTileParts(o, id, n, "N", width, t);
      hide S.PlainTile, S.TilesOf;
    } else if o.body.kind == "conv2d_s8" {
      var width := WidthOfPlain(o, id, n, "OC", tiles, t);
      PlainTileParts(o, id, n, "OC", width, t);
      hide S.PlainTile, S.TilesOf;
    } else {
      ChainParts(sim, o);
      var width := WidthOfFused(o, id, n, tiles, t);
      hide S.TilesOf, StagesFit, Chained;
      StagesNarrowed(sim, o, tiles[t].subOps, width, id, t);
      NarrowedParts(o.subOps, tiles[t].subOps, width);
    }
  }

  /** The table after one step. */
  function TableAfter(o: Op, targets: map<int, int>, table: S.Tensors): S.Tensors {
    if S.Chosen(targets, o) && S.WidthOf(PiecesOf(o, targets)) > 0 && o.outputs != []
    then S.Register(table, o.outputs[0], targets[o.id.value], S.WidthOf(PiecesOf(o, targets)), o.body.kind != "linear_s8")
    else table
  }

  lemma StepTable(s: S.Pass, o: Op, targets: map<int, int>)
    requires S.Step(s, o, targets).Ok?
    ensures S.Step(s, o, targets).value.tensors == TableAfter(o, targets, s.tensors)
    ensures S.Chosen(targets, o) ==> S.TilesOf(o, o.id.value, targets[o.id.value]) == Ok(PiecesOf(o, targets))
  {
    hide S.TilesOf, S.Register;
  }

  /** Registering adds names of this op's tiles and changes nothing. */
  lemma AfterAdds(o: Op, targets: map<int, int>, table: S.Tensors, x: Name)
    ensures x in table ==> x in TableAfter(o, targets, table) && TableAfter(o, targets, table)[x] == table[x]
    ensures x in TableAfter(o, targets, table) && x !in table ==>
      S.Chosen(targets, o) && o.outputs != [] && OneOfTiles(x, o.outputs[0], targets[o.id.value])
  {
    hide S.TileShape, S.RegisterTo, PiecesOf;
    if S.Chosen(targets, o) && o.outputs != [] && o.outputs[0] in table && table[o.outputs[0]].shape != [] {
      var name := o.outputs[0];
      Registered(table, name, table[name], S.TileShape(table[name].shape, S.WidthOf(PiecesOf(o, targets)), o.body.kind != "linear_s8"), targets[o.id.value], x);
    }
  }

  /** Tiles that were not registered yet get the entry they should have. */
  lemma AfterRegisters(sim: Simulator, o: Op, targets: map<int, int>, tensors: S.Tensors, table: S.Tensors, t: nat)
    requires S.Chosen(targets, o) && Fits(sim, o) && Cut(o, targets)
    requires o.outputs != [] && o.outputs[0] in tensors && tensors[o.outputs[0]].shape == SizesOf(o)
    requires o.outputs[0] in table && table[o.outputs[0]] == tensors[o.outputs[0]]
    requires t < targets[o.id.value] && TileName(o.outputs[0], t) !in table && t < |PiecesOf(o, targets)|
    ensures RightTile(tensors, o, PiecesOf(o, targets)[t], TableAfter(o, targets, table), t)
  {
    var name, tiles, n := o.outputs[0], PiecesOf(o, targets), targets[o.id.value];
    RecordedWidth(sim, o, o.id.value, n, tiles, t);
    TileSizes(sim, o, o.id.value, n, tiles, t);
    var width := Geometry(tiles[t]).1;
    NarrowedSizes(o, tiles[t]);
    hide PiecesOf, Fits, S.TilesOf, Geometry, SizesOf, S.RegisterTo, S.TileShape, S.WidthOf, TileName;
    assert OneOfTiles(TileName(name, t), name, n);
    Registered(table, name, table[name], S.TileShape(table[name].shape, width, o.body.kind != "linear_s8"), n, TileName(name, t));
  }

  lemma NotYet(ops: seq<Op>, tensors: S.Tensors, targets: map<int, int>, k: nat, table: S.Tensors, t: nat)
    requires DistinctIds(ops) && SingleMaker(ops) && k < |ops| && TableRight(ops, tensors, targets, k, table)
    requires ops[k].outputs != [] && TileName(ops[k].outputs[0], t) !in tensors
    ensures TileName(ops[k].outputs[0], t) !in table
  {
    hide TileName, S.Chosen, TilesListed, Listed;
    var x := TileName(ops[k].outputs[0], t);
    if x in table {
      var j: nat, u: nat :| j < k && SplitName(ops, targets, j, u, x);
      TileNamesDiffer(ops[k].outputs[0], t, ops[j].outputs[0], u);
      SameMakerSameOp(ops, j, k);
    }
  }

  lemma SameMakerSameOp(ops: seq<Op>, j: nat, k: nat)
    requires DistinctIds(ops) && SingleMaker(ops) && j < |ops| && k < |ops|
    requires ops[j].outputs != [] && ops[k].outputs != [] && ops[j].outputs[0] == ops[k].outputs[0]
    ensures j == k
  {
    assert ops[j].outputs[0] in ops[j].outputs && ops[j].outputs[0] in ops[k].outputs;
    assert ops[j] in ops && ops[k] in ops;
  }

  lemma OldListed(ops: seq<Op>, tensors: S.Tensors, targets: map<int, int>, k: nat, table: S.Tensors, j: nat)
    requires k < |ops| && TableRight(ops, tensors, targets, k, table) && j < k && Listed(ops, tensors, targets, j)
    ensures TilesListed(ops, tensors, targets, TableAfter(ops[k], targets, table), j)
  {
    hide TileName, S.Chosen, PiecesOf, TableAfter, RightEntry;
    assert TilesListed(ops, tensors, targets, table, j);
    forall x
      ensures x in table ==> x in TableAfter(ops[k], targets, table) && TableAfter(ops[k], targets, table)[x] == table[x]
    {
      AfterAdds(ops[k], targets, table, x);
    }
  }

  lemma NewListed(sim: Simulator, ops: seq<Op>, tensors: S.Tensors, targets: map<int, int>, k: nat, table: S.Tensors)
    requires Sane(sim, ops, targets) && k < |ops| && TableRight(ops, tensors, targets, k, table) && Listed(ops, tensors, targets, k)
    requires Cut(ops[k], targets)
    ensures TilesListed(ops, tensors, targets, TableAfter(ops[k], targets, table), k)
  {
    var o := ops[k];
    assert Fits(sim, o) && o.outputs[0] in table && table[o.outputs[0]] == tensors[o.outputs[0]];
    hide TileName, S.Chosen, PiecesOf, TableAfter, RightTile, Fits, Cut, TableRight, SizesOf;
    forall t: nat | t < targets[o.id.value] && TileName(o.outputs[0], t) !in tensors && t < |PiecesOf(o, targets)|
      ensures RightTile(tensors, o, PiecesOf(o, targets)[t], TableAfter(o, targets, table), t)
    {
      NotYet(ops, tensors, targets, k, table, t);
      AfterRegisters(sim, o, targets, tensors, table, t);
    }
  }

  lemma FromHere(ops: seq<Op>, tensors: S.Tensors, targets: map<int, int>, k: nat, table: S.Tensors, x: Name)
    requires k < |ops| && TableRight(ops, tensors, targets, k, table) && x !in tensors && x in TableAfter(ops[k], targets, table)
    ensures FromSplit(ops, targets, k + 1, x)
  {
    hide TileName, TableAfter, Listed, TilesListed;
    AfterAdds(ops[k], targets, table, x);
    if x in table {
      var j: nat, t: nat :| j < k && SplitName(ops, targets, j, t, x);
      assert SplitName(ops, targets, j, t, x);
    } else {
      var t: nat :| t < targets[ops[k].id.value] && x == TileName(ops[k].outputs[0], t);
      assert SplitName(ops, targets, k, t, x);
    }
  }

  lemma StepKeepsTable(sim: Simulator, ops: seq<Op>, tensors: S.Tensors, targets: map<int, int>, k: nat, table: S.Tensors)
    requires Sane(sim, ops, targets) && k < |ops| && TableRight(ops, tensors, targets, k, table)
    requires Cut(ops[k], targets)
    ensures TableRight(ops, tensors, targets, k + 1, TableAfter(ops[k], targets, table))
  {
    var after := TableAfter(ops[k], targets, table);
    OldStay(ops, tensors, targets, k, table);
    hide *;
    forall x | x in after && x !in tensors
      ensures FromSplit(ops, targets, k + 1, x)
    {
      FromHere(ops, tensors, targets, k, table, x);
    }
    forall j: nat | j < k + 1 && Listed(ops, tensors, targets, j)
      ensures TilesListed(ops, tensors, targets, after, j)
    {
      if j < k {
        OldListed(ops, tensors, targets, k, table, j);
      } else {
        NewListed(sim, ops, tensors, targets, k, table);
      }
    }
    ToTableRight(ops, tensors, targets, k + 1, after);
  }

  lemma OldStay(ops: seq<Op>, tensors: S.Tensors, targets: map<int, int>, k: nat, table: S.Tensors)
    requires k < |ops| && TableRight(ops, tensors, targets, k, table)
    ensures forall x :: x in tensors ==> x in TableAfter(ops[k], targets, table) && TableAfter(ops[k], targets, table)[x] == tensors[x]
  {
    assert forall x :: x in tensors ==> x in table && table[x] == tensors[x];
    hide *;
    forall x | x in tensors
      ensures x in TableAfter(ops[k], targets, table) && TableAfter(ops[k], targets, table)[x] == tensors[x]
    {
      AfterAdds(ops[k], targets, table, x);
    }
  }

  lemma ToTableRight(ops: seq<Op>, tensors: S.Tensors, targets: map<int, int>, k: nat, table: S.Tensors)
    requires forall x :: x in tensors ==> x in table && table[x] == tensors[x]
    requires forall x :: x in table && x !in tensors ==> FromSplit(ops, targets, k, x)
    requires forall j: nat :: j < k && Listed(ops, tensors, targets, j) ==> TilesListed(ops, tensors, targets, table, j)
    ensures TableRight(ops, tensors, targets, k, table)
  {
    hide FromSplit, TilesListed, Listed;
  }

  lemma {:induction false} StepsTable(sim: Simulator, ops: seq<Op>, tensors: S.Tensors, targets: map<int, int>, k: nat)
    requires Sane(sim, ops, targets) && k <= |ops| && S.Steps(ops, tensors, targets, k).Ok?
    ensures TableRight(ops, tensors, targets, k, S.Steps(ops, tensors, targets, k).value.tensors)
  {
    hide S.Step, Sane, TableAfter, S.TilesOf, PiecesOf;
    if k > 0 {
      StepsTable(sim, ops, tensors, targets, k - 1);
      hide TableRight;
      var s := S.Steps(ops, tensors, targets, k - 1).value;
      StepTable(s, ops[k - 1], targets);
      StepKeepsTable(sim, ops, tensors, targets, k - 1, s.tensors);
    }
  }

  // ---------------------------------------------------------------- the result

  /** After a split: what was registered stays as it was, what is new is a tile's, and the tiles of an op
      whose tensor is registered with the op's own sizes are registered with theirs. */
  lemma TableIsRight(sim: Simulator, ops: seq<Op>, tensors: S.Tensors, hint: seq<S.Spec>, r: S.Tiled)
    requires Sane(sim, ops, S.Targets(hint)) && SF.Splits(ops, tensors, hint, r)
    ensures TableRight(ops, tensors, S.Targets(hint), |ops|, r.tensors)
  {
    hide S.Steps, S.HintError, Sane, TableRight;
    StepsTable(sim, ops, tensors, S.Targets(hint), |ops|);
  }

  /** A tile is registered with as many elements as the value it holds, and the tiles of an op have
      together as many as its own tensor. */
  lemma TileCounts(k: Located, sim: Simulator, o: Op, id: int, n: nat, tiles: seq<Op>, t: nat, e: Env)
    requires Interprets(k, sim) && Fits(sim, o) && !o.origin.Tile? && n >= 2 && S.TilesOf(o, id, n) == Ok(tiles) && t < n
    ensures |tiles| == n && tiles[t].outputs != [] && Numel(SizesOf(tiles[t])) == |Made(k, tiles[t], e)|
    ensures Numel(SizesOf(tiles[t])) * n == Numel(SizesOf(o))
  {
    TileHoldsItsPart(k, sim, o, id, n, tiles, t, e);
    TileRecord(sim, o, id, n, tiles, t);
    CountIsGeometry(tiles[t]);
    CountIsGeometry(o);
    hide *;
    ItsPart(k, o, tiles[t], e);
    var g, w := Geometry(o), Geometry(tiles[t]).1;
    PartCount(Made(k, tiles[t], e), Made(k, o, e), g.0, w, g.1, g.2, OffsetOf(tiles[t]));
    TimesTiles(g.0, w, g.2, n);
  }

  lemma PartCount(part: seq<int>, whole: seq<int>, outer: nat, width: nat, full: nat, inner: nat, off: nat)
    requires HoldsCells(part, whole, outer, width, full, inner, off)
    ensures |part| == outer * width * inner
  {
    hide T.At, T.Position;
  }

  lemma TimesTiles(a: int, w: int, c: int, n: int)
    ensures a * w * c * n == a * (w * n) * c
  {
  }

  function Total(counts: seq<int>): int {
    if counts == [] then 0 else Total(counts[..|counts| - 1]) + counts[|counts| - 1]
  }

  /** The element counts of the tiles. */
  function CountsOfTiles(tiles: seq<Op>): (r: seq<int>)
    ensures |r| == |tiles| && forall t :: 0 <= t < |tiles| ==> r[t] == Numel(SizesOf(tiles[t]))
  {
    seq(|tiles|, t requires 0 <= t < |tiles| => Numel(SizesOf(tiles[t])))
  }

  lemma {:induction false} TotalOfEqual(counts: seq<int>, x: int)
    requires forall t :: 0 <= t < |counts| ==> counts[t] == x
    ensures Total(counts) == x * |counts|
  {
    if counts != [] {
      var n := |counts| - 1;
      TotalOfEqual(counts[..n], x);
      assert x * n + x == x * (n + 1);
    } else {
      assert x * 0 == 0;
    }
  }

  lemma TileCountsAddUp(k: Located, sim: Simulator, o: Op, id: int, n: nat, tiles: seq<Op>)
    requires Interprets(k, sim) && Fits(sim, o) && !o.origin.Tile? && n >= 2 && S.TilesOf(o, id, n) == Ok(tiles)
    ensures Total(CountsOfTiles(tiles)) == Numel(SizesOf(o))
  {
    hide *;
    TileCounts(k, sim, o, id, n, tiles, 0, map[]);
    var x := Numel(SizesOf(tiles[0]));
    forall t: nat | t < n
      ensures CountsOfTiles(tiles)[t] == x
    {
      TileCounts(k, sim, o, id, n, tiles, t, map[]);
      SameFactor(Numel(SizesOf(tiles[t])), x, n);
    }
    TotalOfEqual(CountsOfTiles(tiles), x);
  }

  lemma SameFactor(a: int, b: int, n: nat)
    requires n > 0 && a * n == b * n
    ensures a == b
  {
    assert (a - b) * n == 0;
  }
}
