/** What the split rewriter keeps (pipeline/apply_split_hint.py): the axis is covered once, no two
    tiles make the same tensor, ids are reassigned without loss, and the dependencies of the result
    are those of the input with each op spread over its tiles. */
module SplitFacts {
  import opened Ir
  import opened Seqs
  import opened Digraph
  import opened Fusion
  import FR = FusionRewrite
  import opened Renumbering
  import opened Names
  import T = Tiles
  import S = Split

  // ---------------------------------------------------------------- the axis

  /** How many channels the op has along the axis it is split on. */
  ghost predicate FullWidth(o: Op, full: int) {
    if o.body.kind == "linear_s8" then "N" in o.body.shape && full == o.body.shape["N"]
    else if o.body.kind == "conv2d_s8" then "OC" in o.body.shape && full == o.body.shape["OC"]
    else S.ConvStage(o.subOps).Some? && var conv := S.ConvStage(o.subOps).value; "OC" in conv.body.shape && full == conv.body.shape["OC"]
  }

  /** A tile is recorded as number `t` of `n`, as wide as every other and starting where they end. */
  ghost predicate IsTile(o: Op, id: int, n: nat, width: int, tile: Op, t: nat) {
    && tile.origin == Tile(id, t, n, width, t * width)
    && o.outputs != [] && tile.outputs == [TileName(o.outputs[0], t)]
    && tile.inputs == o.inputs && tile.deps == o.deps
    && tile.name == TileName(o.name, t) && tile.target == o.target && tile.marks == o.marks && tile.internal == o.internal
    && tile.body == o.body.(shape := tile.body.shape)
  }

  lemma TilesAre(o: Op, id: int, n: nat, tiles: seq<Op>) returns (full: int)
    requires n >= 2 && S.TilesOf(o, id, n) == Ok(tiles)
    ensures FullWidth(o, full) && full % n == 0 && |tiles| == n
    ensures forall t :: 0 <= t < n ==> IsTile(o, id, n, full / n, tiles[t], t)
  {
    hide TileName, S.TiledStages;
    if o.body.kind == "linear_s8" {
      full := o.body.shape["N"];
    } else if o.body.kind == "conv2d_s8" {
      full := o.body.shape["OC"];
    } else {
      full := S.ConvStage(o.subOps).value.body.shape["OC"];
      forall t | 0 <= t < n
        ensures IsTile(o, id, n, full / n, tiles[t], t)
      {
        assert S.FusedTile(o, id, n, full, full / n, t) == Ok(tiles[t]);
      }
    }
  }

  predicate Holds(tile: Op, c: int) {
    tile.origin.Tile? && tile.origin.offset <= c < tile.origin.offset + tile.origin.width
  }

  /** Every channel of the axis belongs to exactly one tile. */
  lemma AxisIsCovered(o: Op, id: int, n: nat, tiles: seq<Op>, full: nat, c: nat)
    requires n >= 2 && S.TilesOf(o, id, n) == Ok(tiles) && FullWidth(o, full) && c < full
    ensures full % n == 0 && |tiles| == n && 0 <= c / (full / n) < n
    ensures forall t :: 0 <= t < n ==> (Holds(tiles[t], c) <==> t == c / (full / n))
  {
    hide *;
    var f := TilesAre(o, id, n, tiles);
    OneWidth(o, f, full);
    T.TilesPartition(full, n, c);
    forall t | 0 <= t < n
      ensures Holds(tiles[t], c) <==> t == c / (full / n)
    {
      HoldsMeans(o, id, n, full / n, tiles[t], t, c);
    }
  }

  lemma OneWidth(o: Op, f: int, g: int)
    requires FullWidth(o, f) && FullWidth(o, g)
    ensures f == g
  {
  }

  lemma HoldsMeans(o: Op, id: int, n: nat, width: nat, tile: Op, t: nat, c: nat)
    requires IsTile(o, id, n, width, tile, t)
    ensures Holds(tile, c) <==> T.Covers(width, t, c)
  {
    hide TileName;
  }

  // ---------------------------------------------------------------- stages of a fused tile

  lemma StageOutput(sub: Op, inside: set<Name>, full: int, width: int, id: int, t: nat, stage: Op, j: nat)
    requires Ok(stage) == S.TiledStage(sub, inside, full, width, id, t) && forall x :: x in sub.outputs ==> x in inside
    ensures |stage.outputs| == |sub.outputs|
    ensures j < |sub.outputs| ==> stage.outputs[j] == TileName(sub.outputs[j], t)
  {
    hide TileName, S.NarrowShape;
  }

  lemma StageOf(subs: seq<Op>, full: int, width: int, id: int, t: nat, stages: seq<Op>, i: nat)
    requires S.TiledStages(subs, full, width, id, t, |subs|) == Ok(stages) && i < |subs|
    ensures |stages| == |subs| && Ok(stages[i]) == S.TiledStage(subs[i], S.Inside(subs), full, width, id, t)
    ensures forall x :: x in subs[i].outputs ==> x in S.Inside(subs)
  {
    hide S.TiledStage;
  }

  lemma StageMakes(subs: seq<Op>, full: int, width: int, id: int, t: nat, stages: seq<Op>, name: Name)
    requires S.TiledStages(subs, full, width, id, t, |subs|) == Ok(stages) && MadeBy(stages, name)
    ensures exists x :: MadeBy(subs, x) && name == TileName(x, t)
  {
    var s :| s in stages && name in s.outputs;
    var i :| 0 <= i < |stages| && stages[i] == s;
    var j :| 0 <= j < |s.outputs| && s.outputs[j] == name;
    hide TileName, S.TiledStages, S.TiledStage, S.Inside;
    StageOf(subs, full, width, id, t, stages, i);
    StageOutput(subs[i], S.Inside(subs), full, width, id, t, stages[i], j);
    assert subs[i] in subs && subs[i].outputs[j] in subs[i].outputs;
    assert MadeBy(subs, subs[i].outputs[j]);
  }

  /** No tensor is made by two tiles, whether it leaves the tile or lives between its stages. */
  lemma TilesShareNothing(o: Op, id: int, n: nat, tiles: seq<Op>, t: nat, u: nat, name: Name)
    requires n >= 2 && S.TilesOf(o, id, n) == Ok(tiles) && t < |tiles| && u < |tiles| && t != u
    ensures tiles[t].name != tiles[u].name
    ensures name in tiles[t].outputs ==> name !in tiles[u].outputs
    ensures o.body.kind in S.FUSED_CONVS && MadeBy(tiles[t].subOps, name) ==> !MadeBy(tiles[u].subOps, name)
  {
    var full := TilesAre(o, id, n, tiles);
    assert IsTile(o, id, n, full / n, tiles[t], t) && IsTile(o, id, n, full / n, tiles[u], u);
    if name in tiles[t].outputs && name in tiles[u].outputs {
      TileNamesDiffer(o.outputs[0], t, o.outputs[0], u);
    }
    if tiles[t].name == tiles[u].name {
      TileNamesDiffer(o.name, t, o.name, u);
    }
    if o.body.kind in S.FUSED_CONVS {
      assert o.body.kind != "linear_s8" && o.body.kind != "conv2d_s8";
      FusedStages(o, id, n, tiles, t);
      FusedStages(o, id, n, tiles, u);
      hide S.TilesOf, TileName, IsTile;
      if MadeBy(tiles[t].subOps, name) && MadeBy(tiles[u].subOps, name) {
        StageMakes(o.subOps, full, full / n, id, t, tiles[t].subOps, name);
        StageMakes(o.subOps, full, full / n, id, u, tiles[u].subOps, name);
        var x :| MadeBy(o.subOps, x) && name == TileName(x, t);
        var y :| MadeBy(o.subOps, y) && name == TileName(y, u);
        TileNamesDiffer(x, t, y, u);
      }
    }
  }

  lemma FusedStages(o: Op, id: int, n: nat, tiles: seq<Op>, t: nat)
    requires n >= 2 && S.TilesOf(o, id, n) == Ok(tiles) && t < |tiles| && o.body.kind != "linear_s8" && o.body.kind != "conv2d_s8"
    ensures S.ConvStage(o.subOps).Some? && "OC" in S.ConvStage(o.subOps).value.body.shape
    ensures var full := S.ConvStage(o.subOps).value.body.shape["OC"];
      S.TiledStages(o.subOps, full, full / n, id, t, |o.subOps|) == Ok(tiles[t].subOps)
  {
    hide TileName, S.TiledStages;
    var full := S.ConvStage(o.subOps).value.body.shape["OC"];
    assert S.FusedTile(o, id, n, full, full / n, t) == Ok(tiles[t]);
  }

  // ---------------------------------------------------------------- renumbering

  /** The lists of `id_remap`, in the order of the ops they belong to, one after the other. */
  function Listed(ops: seq<Op>, remap: map<int, seq<int>>): seq<int> {
    if ops == [] then []
    else
      var o := ops[|ops| - 1];
      Listed(ops[..|ops| - 1], remap) + if o.id.Some? && o.id.value in remap then remap[o.id.value] else []
  }

  ghost predicate Counting(s: seq<int>) {
    forall i :: 0 <= i < |s| ==> s[i] == i
  }

  ghost predicate Owns(remap: map<int, seq<int>>, x: int, v: int) {
    x in remap && v in remap[x]
  }

  ghost predicate InIds(byId: map<int, Op>, remap: map<int, seq<int>>, news: map<int, Op>) {
    forall x, v :: Owns(remap, x, v) ==> x in byId && v in news && news[v].deps == byId[x].deps
  }

  ghost predicate DisjointLists(remap: map<int, seq<int>>) {
    forall x, y, v :: x in remap && y in remap && v in remap[x] && v in remap[y] ==> x == y
  }

  ghost predicate Owned(remap: map<int, seq<int>>, v: int) {
    exists x :: x in remap && v in remap[x]
  }

  ghost predicate ListsCount(ops: seq<Op>, k: nat, s: S.Pass)
    requires k <= |ops|
  {
    && Counting(Listed(ops[..k], s.remap)) && |Listed(ops[..k], s.remap)| == s.next
    && Counting(IdsOf(s.ops)) && |IdsOf(s.ops)| == s.next
  }

  ghost predicate OwnersRight(ops: seq<Op>, k: nat, s: S.Pass)
    requires k <= |ops|
  {
    && (forall x :: x in s.remap <==> x in ById(ops[..k]))
    && (forall x :: x in s.remap ==> s.remap[x] != [])
    && (forall v :: v in ById(s.ops) <==> 0 <= v < s.next)
    && (forall v :: 0 <= v < s.next <==> Owned(s.remap, v))
    && InIds(ById(ops), s.remap, ById(s.ops)) && DisjointLists(s.remap)
  }

  ghost predicate Inv(ops: seq<Op>, k: nat, s: S.Pass)
    requires k <= |ops|
  {
    ListsCount(ops, k, s) && OwnersRight(ops, k, s) && AscendingLists(ops, k, s.remap)
  }

  /** An earlier op gets smaller ids than a later one. */
  ghost predicate AscendingLists(ops: seq<Op>, k: nat, remap: map<int, seq<int>>)
    requires k <= |ops|
  {
    forall i, j, u, v :: 0 <= i < j < k && InList(ops[i], remap, u) && InList(ops[j], remap, v) ==> u < v
  }

  ghost predicate InList(o: Op, remap: map<int, seq<int>>, v: int) {
    o.id.Some? && o.id.value in remap && v in remap[o.id.value]
  }

  /** What one step appends: ops numbered on from `s.next`, for the op at `k`. */
  ghost predicate Appends(ops: seq<Op>, k: nat, s: S.Pass, t: S.Pass, added: seq<Op>)
    requires k < |ops|
  {
    && ops[k].id.Some? && added != [] && t.ops == s.ops + added && t.next == s.next + |added|
    && t.remap == s.remap[ops[k].id.value := IdRange(s.next, |added|)]
    && NumberedFrom(added, s.next)
    && forall i :: 0 <= i < |added| ==> added[i].deps == ops[k].deps
  }

  lemma StepAppends(ops: seq<Op>, k: nat, s: S.Pass, targets: map<int, int>) returns (added: seq<Op>)
    requires k < |ops| && ops[k].id.Some? && S.Step(s, ops[k], targets).Ok?
    ensures Appends(ops, k, s, S.Step(s, ops[k], targets).value, added)
  {
    var o, t := ops[k], S.Step(s, ops[k], targets).value;
    hide S.TilesOf, S.Register;
    if S.Chosen(targets, o) {
      var tiles := S.TilesOf(o, o.id.value, targets[o.id.value]).value;
      var full := TilesAre(o, o.id.value, targets[o.id.value], tiles);
      added := S.Numbered(tiles, s.next);
      forall i | 0 <= i < |added|
        ensures added[i].deps == o.deps
      {
        assert IsTile(o, o.id.value, targets[o.id.value], full / targets[o.id.value], tiles[i], i);
      }
    } else {
      added := [o.(id := Some(s.next))];
      assert IdRange(s.next, 1) == [s.next];
    }
  }

  ghost predicate NumberedFrom(added: seq<Op>, next: nat) {
    forall i :: 0 <= i < |added| ==> added[i].id == Some(next + i)
  }

  lemma {:induction false} AppendIds(ops: seq<Op>, added: seq<Op>, next: nat)
    requires NumberedFrom(added, next)
    ensures IdsOf(ops + added) == IdsOf(ops) + IdRange(next, |added|)
  {
    if added == [] {
      assert ops + added == ops;
    } else {
      var init, o := added[..|added| - 1], added[|added| - 1];
      assert ops + added == (ops + init) + [o];
      AppendIds(ops, init, next);
      IdsAppend(ops + init, o);
      hide IdsOf;
      assert IdRange(next, |added|) == IdRange(next, |init|) + [next + |init|];
    }
  }

  lemma {:induction false} AppendById(ops: seq<Op>, added: seq<Op>, next: nat, v: int)
    requires NumberedFrom(added, next)
    ensures v in ById(ops + added) <==> v in ById(ops) || next <= v < next + |added|
    ensures next <= v < next + |added| ==> ById(ops + added)[v] == added[v - next]
    ensures v in ById(ops) && v < next ==> ById(ops + added)[v] == ById(ops)[v]
  {
    if added == [] {
      assert ops + added == ops;
    } else {
      var init, o := added[..|added| - 1], added[|added| - 1];
      assert ops + added == (ops + init) + [o];
      assert o.id == Some(next + |init|);
      AppendById(ops, init, next, v);
      ByIdAppend(ops + init, o);
      hide ById, NumberedFrom;
    }
  }

  lemma {:induction false} ListedSame(ops: seq<Op>, r1: map<int, seq<int>>, r2: map<int, seq<int>>)
    requires forall i :: 0 <= i < |ops| && ops[i].id.Some? ==>
      (ops[i].id.value in r1 <==> ops[i].id.value in r2) && (ops[i].id.value in r1 ==> r1[ops[i].id.value] == r2[ops[i].id.value])
    ensures Listed(ops, r1) == Listed(ops, r2)
  {
    if ops != [] {
      var n := |ops| - 1;
      assert forall i :: 0 <= i < n ==> ops[..n][i] == ops[i];
      ListedSame(ops[..n], r1, r2);
    }
  }

  lemma CountOn(a: seq<int>, n: nat)
    requires Counting(a)
    ensures Counting(a + IdRange(|a|, n))
  {
  }

  lemma FreshId(ops: seq<Op>, k: nat)
    requires UniqueIds(ops) && k < |ops| && ops[k].id.Some?
    ensures ops[k].id.value !in ById(ops[..k])
    ensures forall i :: 0 <= i < k ==> ops[i].id != ops[k].id
  {
    ByIdHas(ops[..k], ops[k].id.value);
    forall i | 0 <= i < k
      ensures ops[..k][i].id != ops[k].id
    {
    }
  }

  lemma ListsStep(ops: seq<Op>, k: nat, s: S.Pass, t: S.Pass, added: seq<Op>)
    requires UniqueIds(ops) && k < |ops| && Inv(ops, k, s) && Appends(ops, k, s, t, added)
    ensures Counting(Listed(ops[..k + 1], t.remap)) && |Listed(ops[..k + 1], t.remap)| == t.next
    ensures Counting(IdsOf(t.ops)) && |IdsOf(t.ops)| == t.next
  {
    var x := ops[k].id.value;
    FreshId(ops, k);
    assert ops[..k + 1][..k] == ops[..k];
    forall i | 0 <= i < k && ops[..k][i].id.Some?
      ensures ops[..k][i].id.value != x
    {
    }
    hide ById, InIds, DisjointLists, AscendingLists;
    ListedSame(ops[..k], s.remap, t.remap);
    CountOn(Listed(ops[..k], s.remap), |added|);
    AppendIds(s.ops, added, s.next);
    CountOn(IdsOf(s.ops), |added|);
  }

  lemma RangeHas(lo: nat, n: nat, v: int)
    ensures v in IdRange(lo, n) <==> lo <= v < lo + n
  {
    if lo <= v < lo + n {
      assert IdRange(lo, n)[v - lo] == v;
    }
  }

  lemma FreshKey(ops: seq<Op>, k: nat, s: S.Pass)
    requires UniqueIds(ops) && k < |ops| && Inv(ops, k, s) && ops[k].id.Some?
    ensures ops[k].id.value !in s.remap
  {
    FreshId(ops, k);
    var x := ops[k].id.value;
    assert x in s.remap <==> x in ById(ops[..k]);
  }

  lemma OwnedBelow(ops: seq<Op>, k: nat, s: S.Pass, v: int)
    requires k <= |ops| && Inv(ops, k, s)
    ensures 0 <= v < s.next <==> Owned(s.remap, v)
  {
    hide ById, Owned;
  }

  /** An id belongs to the op at `k` if it is new, and to whom it belonged before otherwise. */
  lemma OwnersStep(ops: seq<Op>, k: nat, s: S.Pass, t: S.Pass, added: seq<Op>, y: int, v: int)
    requires UniqueIds(ops) && k < |ops| && Inv(ops, k, s) && Appends(ops, k, s, t, added)
    ensures ops[k].id.value !in s.remap
    ensures y in t.remap && v in t.remap[y] <==>
      (y == ops[k].id.value && s.next <= v < t.next) || (y in s.remap && v in s.remap[y])
    ensures y in s.remap && v in s.remap[y] ==> 0 <= v < s.next
  {
    FreshKey(ops, k, s);
    OwnedBelow(ops, k, s, v);
    RangeHas(s.next, |added|, v);
    hide ById, Inv, UniqueIds, IdRange;
    if y in s.remap && v in s.remap[y] {
      assert Owned(s.remap, v);
    }
  }

  lemma OwnedStep(ops: seq<Op>, k: nat, s: S.Pass, t: S.Pass, added: seq<Op>)
    requires UniqueIds(ops) && k < |ops| && Inv(ops, k, s) && Appends(ops, k, s, t, added)
    ensures forall v :: 0 <= v < t.next <==> Owned(t.remap, v)
    ensures DisjointLists(t.remap)
    ensures forall x :: x in t.remap ==> t.remap[x] != []
  {
    var x := ops[k].id.value;
    forall y, v
      ensures y in t.remap && v in t.remap[y] <==> (y == x && s.next <= v < t.next) || (y in s.remap && v in s.remap[y])
      ensures y in s.remap && v in s.remap[y] ==> 0 <= v < s.next
    {
      OwnersStep(ops, k, s, t, added, y, v);
    }
    hide ById, AscendingLists, Listed, Counting, IdsOf, InIds;
    assert x in t.remap;
    forall v
      ensures 0 <= v < t.next <==> Owned(t.remap, v)
    {
      OwnedBelow(ops, k, s, v);
      if 0 <= v < s.next {
        var y :| y in s.remap && v in s.remap[y];
        assert y in t.remap && v in t.remap[y];
      } else if s.next <= v < t.next {
        assert x in t.remap && v in t.remap[x];
      }
    }
  }

  lemma NewIdStep(ops: seq<Op>, k: nat, s: S.Pass, t: S.Pass, added: seq<Op>, y: int, v: int)
    requires UniqueIds(ops) && k < |ops| && Inv(ops, k, s) && Appends(ops, k, s, t, added)
    requires Owns(t.remap, y, v)
    ensures y in ById(ops) && v in ById(t.ops) && ById(t.ops)[v].deps == ById(ops)[y].deps
  {
    hide *;
    AppendsParts(ops, k, s, t, added);
    OldIds(ops, k, s);
    OwnersStep(ops, k, s, t, added, y, v);
    OwnsMeans(t.remap, y, v);
    AppendById(s.ops, added, s.next, v);
    if y in s.remap && v in s.remap[y] {
      InIdsAt(ById(ops), s.remap, ById(s.ops), y, v);
    } else {
      ByIdAt(ops, k);
    }
  }

  lemma OwnsMeans(remap: map<int, seq<int>>, x: int, v: int)
    ensures Owns(remap, x, v) <==> x in remap && v in remap[x]
  {
  }

  lemma InIdsAt(byId: map<int, Op>, remap: map<int, seq<int>>, news: map<int, Op>, x: int, v: int)
    requires InIds(byId, remap, news) && x in remap && v in remap[x]
    ensures x in byId && v in news && news[v].deps == byId[x].deps
  {
    assert Owns(remap, x, v);
  }

  lemma AppendsParts(ops: seq<Op>, k: nat, s: S.Pass, t: S.Pass, added: seq<Op>)
    requires k < |ops| && Appends(ops, k, s, t, added)
    ensures ops[k].id.Some? && NumberedFrom(added, s.next) && t.ops == s.ops + added && t.next == s.next + |added|
    ensures forall i :: 0 <= i < |added| ==> added[i].deps == ops[k].deps
  {
  }

  lemma NewIdsStep(ops: seq<Op>, k: nat, s: S.Pass, t: S.Pass, added: seq<Op>)
    requires UniqueIds(ops) && k < |ops| && Inv(ops, k, s) && Appends(ops, k, s, t, added)
    ensures forall v :: v in ById(t.ops) <==> 0 <= v < t.next
    ensures InIds(ById(ops), t.remap, ById(t.ops))
  {
    hide *;
    AppendsParts(ops, k, s, t, added);
    OldIds(ops, k, s);
    forall v
      ensures v in ById(t.ops) <==> 0 <= v < t.next
    {
      AppendById(s.ops, added, s.next, v);
    }
    forall y, v | Owns(t.remap, y, v)
      ensures y in ById(ops) && v in ById(t.ops) && ById(t.ops)[v].deps == ById(ops)[y].deps
    {
      NewIdStep(ops, k, s, t, added, y, v);
    }
    ToInIds(ById(ops), t.remap, ById(t.ops));
  }

  lemma ToInIds(byId: map<int, Op>, remap: map<int, seq<int>>, news: map<int, Op>)
    requires forall x, v :: Owns(remap, x, v) ==> x in byId && v in news && news[v].deps == byId[x].deps
    ensures InIds(byId, remap, news)
  {
  }

  lemma OldIds(ops: seq<Op>, k: nat, s: S.Pass)
    requires k <= |ops| && Inv(ops, k, s)
    ensures InIds(ById(ops), s.remap, ById(s.ops)) && forall v :: v in ById(s.ops) <==> 0 <= v < s.next
  {
    hide ById, InIds, Owned;
  }

  lemma MapStep(ops: seq<Op>, k: nat, s: S.Pass, t: S.Pass, added: seq<Op>)
    requires UniqueIds(ops) && k < |ops| && Inv(ops, k, s) && Appends(ops, k, s, t, added)
    ensures forall x :: x in t.remap <==> x in ById(ops[..k + 1])
    ensures forall x :: x in t.remap ==> t.remap[x] != []
    ensures forall v :: v in ById(t.ops) <==> 0 <= v < t.next
    ensures forall v :: 0 <= v < t.next <==> Owned(t.remap, v)
    ensures InIds(ById(ops), t.remap, ById(t.ops)) && DisjointLists(t.remap)
  {
    hide *;
    OwnedStep(ops, k, s, t, added);
    NewIdsStep(ops, k, s, t, added);
    KeyStep(ops, k, s, t, added);
  }

  lemma KeyStep(ops: seq<Op>, k: nat, s: S.Pass, t: S.Pass, added: seq<Op>)
    requires k < |ops| && Inv(ops, k, s) && Appends(ops, k, s, t, added)
    ensures forall x :: x in t.remap <==> x in ById(ops[..k + 1])
  {
    assert forall x :: x in s.remap <==> x in ById(ops[..k]);
    ByIdAppend(ops[..k], ops[k]);
    assert ops[..k + 1] == ops[..k] + [ops[k]];
    hide ById, Inv;
  }

  lemma AscendStep(ops: seq<Op>, k: nat, s: S.Pass, t: S.Pass, added: seq<Op>)
    requires UniqueIds(ops) && k < |ops| && Inv(ops, k, s) && Appends(ops, k, s, t, added)
    ensures AscendingLists(ops, k + 1, t.remap)
  {
    FreshId(ops, k);
    hide ById, Listed, Counting, IdsOf, InIds, DisjointLists;
    forall i, j, u, v | 0 <= i < j < k + 1 && InList(ops[i], t.remap, u) && InList(ops[j], t.remap, v)
      ensures u < v
    {
      assert InList(ops[i], s.remap, u);
      if j < k {
        assert ops[j].id != ops[k].id;
        assert InList(ops[j], s.remap, v);
      } else {
        var x := ops[i].id.value;
        assert x in s.remap && u in s.remap[x];
        assert Owned(s.remap, u);
      }
    }
  }

  lemma ViewKeepsLists(ops: seq<Op>, k: nat, s: S.Pass)
    requires k < |ops| && ListsCount(ops, k, s) && ops[k].id.None?
    ensures ListsCount(ops, k + 1, s.(ops := s.ops + [ops[k]]))
  {
    assert ops[..k + 1][..k] == ops[..k];
    IdsAppend(s.ops, ops[k]);
    assert Listed(ops[..k + 1], s.remap) == Listed(ops[..k], s.remap);
    hide Listed, IdsOf;
  }

  lemma ViewKeepsOwners(ops: seq<Op>, k: nat, s: S.Pass)
    requires k < |ops| && OwnersRight(ops, k, s) && ops[k].id.None?
    ensures OwnersRight(ops, k + 1, s.(ops := s.ops + [ops[k]]))
  {
    assert ops[..k + 1] == ops[..k] + [ops[k]];
    ByIdAppend(ops[..k], ops[k]);
    ByIdAppend(s.ops, ops[k]);
    hide ById, InIds, DisjointLists, Owned;
  }

  lemma ViewKeepsOrder(ops: seq<Op>, k: nat, remap: map<int, seq<int>>)
    requires k < |ops| && AscendingLists(ops, k, remap) && ops[k].id.None?
    ensures AscendingLists(ops, k + 1, remap)
  {
  }

  lemma OwnersAre(ops: seq<Op>, k: nat, s: S.Pass, t: S.Pass, added: seq<Op>)
    requires UniqueIds(ops) && k < |ops| && Inv(ops, k, s) && Appends(ops, k, s, t, added)
    ensures OwnersRight(ops, k + 1, t)
  {
    MapStep(ops, k, s, t, added);
    hide ById, InIds, DisjointLists, Owned, Inv, Appends, UniqueIds;
  }

  lemma ListsAre(ops: seq<Op>, k: nat, s: S.Pass, t: S.Pass, added: seq<Op>)
    requires UniqueIds(ops) && k < |ops| && Inv(ops, k, s) && Appends(ops, k, s, t, added)
    ensures ListsCount(ops, k + 1, t)
  {
    ListsStep(ops, k, s, t, added);
    hide Listed, IdsOf, Counting, Inv, Appends, UniqueIds;
  }

  lemma InvIs(ops: seq<Op>, k: nat, s: S.Pass)
    requires k <= |ops|
    ensures Inv(ops, k, s) <==> ListsCount(ops, k, s) && OwnersRight(ops, k, s) && AscendingLists(ops, k, s.remap)
  {
    hide ListsCount, OwnersRight, AscendingLists;
  }

  lemma ViewStep(ops: seq<Op>, k: nat, s: S.Pass, targets: map<int, int>)
    requires k < |ops| && ops[k].id.None?
    ensures S.Step(s, ops[k], targets) == Ok(s.(ops := s.ops + [ops[k]]))
  {
  }

  lemma StepKeeps(ops: seq<Op>, k: nat, s: S.Pass, targets: map<int, int>)
    requires UniqueIds(ops) && k < |ops| && Inv(ops, k, s) && S.Step(s, ops[k], targets).Ok?
    ensures Inv(ops, k + 1, S.Step(s, ops[k], targets).value)
  {
    hide *;
    var t := S.Step(s, ops[k], targets).value;
    InvIs(ops, k, s);
    InvIs(ops, k + 1, t);
    if ops[k].id.None? {
      ViewStep(ops, k, s, targets);
      ViewKeepsLists(ops, k, s);
      ViewKeepsOwners(ops, k, s);
      ViewKeepsOrder(ops, k, s.remap);
    } else {
      var added := StepAppends(ops, k, s, targets);
      ListsAre(ops, k, s, t, added);
      OwnersAre(ops, k, s, t, added);
      AscendStep(ops, k, s, t, added);
    }
  }

  lemma {:induction false} StepsInvariant(ops: seq<Op>, tensors: S.Tensors, targets: map<int, int>, k: nat)
    requires UniqueIds(ops) && k <= |ops| && S.Steps(ops, tensors, targets, k).Ok?
    ensures Inv(ops, k, S.Steps(ops, tensors, targets, k).value)
  {
    hide S.Step, UniqueIds;
    if k > 0 {
      StepsInvariant(ops, tensors, targets, k - 1);
      hide Inv;
      StepKeeps(ops, k - 1, S.Steps(ops, tensors, targets, k - 1).value, targets);
    }
  }

  // ---------------------------------------------------------------- the result

  ghost predicate Splits(ops: seq<Op>, tensors: S.Tensors, hint: seq<S.Spec>, r: S.Tiled) {
    UniqueIds(ops) && hint != [] && S.Outcome(ops, tensors, hint) == Ok(r)
  }

  lemma SplitsFrom(ops: seq<Op>, tensors: S.Tensors, hint: seq<S.Spec>, r: S.Tiled) returns (s: S.Pass)
    requires Splits(ops, tensors, hint, r)
    ensures Inv(ops, |ops|, s) && r.ops == S.RewireAll(s.ops, s.remap) && r.idRemap == Some(s.remap)
  {
    hide S.Steps, S.HintError;
    s := S.Steps(ops, tensors, S.Targets(hint), |ops|).value;
    StepsInvariant(ops, tensors, S.Targets(hint), |ops|);
  }

  lemma {:induction false} RewiredIds(ops: seq<Op>, remap: map<int, seq<int>>)
    ensures IdsOf(S.RewireAll(ops, remap)) == IdsOf(ops)
    ensures ById(S.RewireAll(ops, remap)).Keys == ById(ops).Keys
    ensures forall v :: v in ById(ops) ==> ById(S.RewireAll(ops, remap))[v] == S.Rewired(ById(ops)[v], remap)
  {
    if ops != [] {
      var n := |ops| - 1;
      RewiredIds(ops[..n], remap);
      assert S.RewireAll(ops, remap)[..n] == S.RewireAll(ops[..n], remap);
    }
  }

  /** The id lists of the input's ops, in list order, are the ids of the output in list order, and
      both are 0 to n' - 1. */
  lemma RenumberingCounts(ops: seq<Op>, tensors: S.Tensors, hint: seq<S.Spec>, r: S.Tiled)
    requires Splits(ops, tensors, hint, r)
    ensures r.idRemap.Some? && Listed(ops, r.idRemap.value) == IdsOf(r.ops) && Counting(IdsOf(r.ops))
    ensures r.idRemap.value.Keys == ById(ops).Keys
  {
    hide *;
    var s := SplitsFrom(ops, tensors, hint, r);
    assert ops[..|ops|] == ops;
    RewiredIds(s.ops, s.remap);
    ListParts(ops, |ops|, s);
  }

  lemma ListParts(ops: seq<Op>, k: nat, s: S.Pass)
    requires k <= |ops| && Inv(ops, k, s)
    ensures Listed(ops[..k], s.remap) == IdsOf(s.ops) && Counting(IdsOf(s.ops))
    ensures s.remap.Keys == ById(ops[..k]).Keys
  {
    hide Owned, InIds, DisjointLists, AscendingLists, IdsOf, Listed;
    SameKeys(s.remap, ById(ops[..k]));
  }

  lemma {:induction false} InSpread(deps: seq<int>, remap: map<int, seq<int>>, e: int)
    ensures e in S.Spread(deps, remap) <==> exists d :: d in deps && d in remap && e in remap[d]
  {
    if deps != [] {
      var n := |deps| - 1;
      InSpread(deps[..n], remap, e);
      assert deps == deps[..n] + [deps[n]];
    }
  }

  lemma KeyOf(ops: seq<Op>, x: int)
    requires x in ById(ops)
    ensures ById(ops)[x].id == Some(x)
  {
    ByIdHas(ops, x);
  }

  /** A tile depends on another op exactly where its original depended on that op's original: on
      all tiles of what was split. */
  lemma EdgesSpread(ops: seq<Op>, tensors: S.Tensors, hint: seq<S.Spec>, r: S.Tiled, x: int, v: int, y: int, u: int)
    requires Splits(ops, tensors, hint, r) && r.idRemap.Some?
    requires x in r.idRemap.value && v in r.idRemap.value[x] && y in r.idRemap.value && u in r.idRemap.value[y]
    ensures Edge(DepGraph(ById(r.ops)), v, u) <==> Edge(DepGraph(ById(ops)), x, y)
  {
    var s := SplitsFrom(ops, tensors, hint, r);
    assert ops[..|ops|] == ops;
    RewiredIds(s.ops, s.remap);
    OldIds(ops, |ops|, s);
    InIdsAt(ById(ops), s.remap, ById(s.ops), x, v);
    InIdsAt(ById(ops), s.remap, ById(s.ops), y, u);
    KeyOf(s.ops, v);
    var o := ById(s.ops)[v];
    FR.UniqueKeepsMembers(S.Spread(o.deps, s.remap));
    InSpread(o.deps, s.remap, u);
    assert DisjointLists(s.remap);
    hide ById, S.Outcome, InIds, Owned, Inv, FR.OrderedUnique, S.Spread, Splits;
  }

  ghost function OwnerOf(remap: map<int, seq<int>>, v: int): int {
    if Owned(remap, v) then var x :| x in remap && v in remap[x]; x else 0
  }

  ghost function FirstOf(remap: map<int, seq<int>>, x: int): int {
    if x in remap && remap[x] != [] then remap[x][0] else 0
  }

  lemma Relabelled(ops: seq<Op>, tensors: S.Tensors, hint: seq<S.Spec>, r: S.Tiled)
    requires Splits(ops, tensors, hint, r)
    ensures r.idRemap.Some?
    ensures var g, h, m := DepGraph(ById(ops)), DepGraph(ById(r.ops)), r.idRemap.value;
      && (forall x, y :: x in g && y in g ==> (Edge(g, x, y) <==> Edge(h, FirstOf(m, x), FirstOf(m, y))))
      && (forall v, u :: v in h && u in h ==> (Edge(h, v, u) <==> Edge(g, OwnerOf(m, v), OwnerOf(m, u))))
  {
    var s := SplitsFrom(ops, tensors, hint, r);
    var g, h, m := DepGraph(ById(ops)), DepGraph(ById(r.ops)), s.remap;
    assert ops[..|ops|] == ops;
    RewiredIds(s.ops, s.remap);
    OldIds(ops, |ops|, s);
    MapParts(ops, |ops|, s);
    hide Inv, Splits, Owned, S.Outcome, ById, S.RewireAll, Edge;
    forall x, y | x in g && y in g
      ensures Edge(g, x, y) <==> Edge(h, FirstOf(m, x), FirstOf(m, y))
    {
      assert x in m && y in m && m[x] != [] && m[y] != [];
      EdgesSpread(ops, tensors, hint, r, x, m[x][0], y, m[y][0]);
    }
    forall v, u | v in h && u in h
      ensures Edge(h, v, u) <==> Edge(g, OwnerOf(m, v), OwnerOf(m, u))
    {
      OwnerOwns(m, v);
      OwnerOwns(m, u);
      EdgesSpread(ops, tensors, hint, r, OwnerOf(m, v), v, OwnerOf(m, u), u);
    }
  }

  lemma OwnerOwns(m: map<int, seq<int>>, v: int)
    requires Owned(m, v)
    ensures OwnerOf(m, v) in m && v in m[OwnerOf(m, v)]
  {
  }

  lemma MapParts(ops: seq<Op>, k: nat, s: S.Pass)
    requires k <= |ops| && Inv(ops, k, s)
    ensures forall x :: x in ById(ops[..k]) ==> x in s.remap && s.remap[x] != []
    ensures forall v :: v in ById(s.ops) ==> Owned(s.remap, v)
  {
    hide ById, Owned, InIds, DisjointLists, AscendingLists;
  }

  lemma CyclesMap(g: Deps, h: Deps, f: int -> int)
    requires forall x, y :: x in g && y in g ==> (Edge(g, x, y) <==> Edge(h, f(x), f(y)))
    requires Acyclic(h)
    ensures Acyclic(g)
  {
    hide Edge;
    if x :| Reaches(g, x, x) {
      var p := PathOf(g, x, x);
      RelabelPath(g, h, f, p);
    }
  }

  /** Splitting any ops leaves the graph schedulable exactly when it was. */
  lemma SplittingKeepsCycles(ops: seq<Op>, tensors: S.Tensors, hint: seq<S.Spec>, r: S.Tiled)
    requires Splits(ops, tensors, hint, r)
    ensures Acyclic(DepGraph(ById(ops))) <==> Acyclic(DepGraph(ById(r.ops)))
  {
    hide *;
    Relabelled(ops, tensors, hint, r);
    var g, h, m := DepGraph(ById(ops)), DepGraph(ById(r.ops)), r.idRemap.value;
    var first, owner := (x: int) => FirstOf(m, x), (v: int) => OwnerOf(m, v);
    if Acyclic(h) {
      CyclesMap(g, h, first);
    }
    if Acyclic(g) {
      CyclesMap(h, g, owner);
    }
  }

  // ---------------------------------------------------------------- order

  /** Every dependency that is an op of the list stands before the op that has it. */
  ghost predicate InOrder(ops: seq<Op>) {
    forall i, j :: 0 <= i < |ops| && 0 <= j < |ops| && ops[i].id.Some? && ops[j].id.Some? && ops[j].id.value in ops[i].deps ==> j < i
  }

  lemma OpAt(ops: seq<Op>, x: int) returns (i: nat)
    requires x in ById(ops)
    ensures i < |ops| && ops[i].id == Some(x) && ById(ops)[x] == ops[i]
  {
    ByIdHas(ops, x);
    i :| 0 <= i < |ops| && ops[i].id == Some(x) && ById(ops)[x] == ops[i];
  }

  lemma DepsAreSmaller(ops: seq<Op>, tensors: S.Tensors, hint: seq<S.Spec>, r: S.Tiled, v: int, u: int)
    requires Splits(ops, tensors, hint, r) && InOrder(ops)
    requires v in ById(r.ops) && u in ById(r.ops) && u in ById(r.ops)[v].deps
    ensures u < v
  {
    var s := SplitsFrom(ops, tensors, hint, r);
    assert ops[..|ops|] == ops;
    RewiredIds(s.ops, s.remap);
    OldIds(ops, |ops|, s);
    MapParts(ops, |ops|, s);
    var m := s.remap;
    assert AscendingLists(ops, |ops|, m);
    hide Inv, Splits, Owned, S.Outcome, ById, S.RewireAll;
    assert Owned(m, v) && Owned(m, u);
    OwnerOwns(m, v);
    OwnerOwns(m, u);
    var x, y := OwnerOf(m, v), OwnerOf(m, u);
    EdgesSpread(ops, tensors, hint, r, x, v, y, u);
    assert Edge(DepGraph(ById(ops)), x, y);
    var i := OpAt(ops, x);
    var j := OpAt(ops, y);
    assert InList(ops[i], m, v) && InList(ops[j], m, u);
  }

  lemma IdsAscend(ops: seq<Op>, i: nat, j: nat)
    requires Counting(IdsOf(ops)) && i < |ops| && j < |ops| && ops[i].id.Some? && ops[j].id.Some?
    ensures i < j ==> ops[i].id.value < ops[j].id.value
  {
    var v := IdsAreWhere(ops, i);
    if i < j {
      var u :| v < u < |IdsOf(ops)| && IdsOf(ops)[u] == ops[j].id.value;
    }
  }

  /** A list in dependency order stays in dependency order. */
  lemma OrderIsKept(ops: seq<Op>, tensors: S.Tensors, hint: seq<S.Spec>, r: S.Tiled)
    requires Splits(ops, tensors, hint, r) && InOrder(ops)
    ensures InOrder(r.ops)
  {
    RenumberingCounts(ops, tensors, hint, r);
    CountedIsUnique(r.ops);
    hide Splits, ById, UniqueIds, Listed;
    forall i, j | 0 <= i < |r.ops| && 0 <= j < |r.ops| && r.ops[i].id.Some? && r.ops[j].id.Some? && r.ops[j].id.value in r.ops[i].deps
      ensures j < i
    {
      ByIdAt(r.ops, i);
      ByIdAt(r.ops, j);
      DepsAreSmaller(ops, tensors, hint, r, r.ops[i].id.value, r.ops[j].id.value);
      IdsAscend(r.ops, i, j);
    }
  }

  // ---------------------------------------------------------------- what is accepted

  /** Entry `i` of the hint is the last one for `x`. */
  ghost predicate LastFor(hint: seq<S.Spec>, x: int, i: nat) {
    i < |hint| && hint[i].0 == x && forall j :: i < j < |hint| ==> hint[j].0 != x
  }

  /** The tile count asked for is that of the last entry for an op. */
  lemma {:induction false} TargetsAreLast(hint: seq<S.Spec>, x: int)
    ensures x in S.Targets(hint) <==> exists i: nat :: LastFor(hint, x, i)
    ensures forall i: nat :: LastFor(hint, x, i) ==> x in S.Targets(hint) && S.Targets(hint)[x] == hint[i].1
  {
    if hint != [] {
      var n: nat := |hint| - 1;
      TargetsAreLast(hint[..n], x);
      if hint[n].0 == x {
        assert LastFor(hint, x, n);
      } else {
        forall i: nat
          ensures LastFor(hint, x, i) <==> LastFor(hint[..n], x, i)
        {
        }
      }
    }
  }

  /** The entry names an op of a kind that can be tiled, and asks for at least two tiles. */
  ghost predicate SpecFine(ops: seq<Op>, spec: S.Spec) {
    spec.1 >= 2 && exists o :: o in ops && o.id == Some(spec.0) && TileableKind(o.body.kind)
  }

  predicate TileableKind(kind: string) {
    kind in {"linear_s8", "conv2d_s8", "conv2d_batchnorm2d_s8", "conv2d_batchnorm2d_silu_s8"}
  }

  /** Stage `i` is a convolution with a shape and the first of them. */
  ghost predicate FirstConv(subs: seq<Op>, i: nat) {
    && i < |subs| && "conv2d" <= subs[i].body.kind && subs[i].body.shape != map[]
    && forall j :: 0 <= j < i ==> !("conv2d" <= subs[j].body.kind) || subs[j].body.shape == map[]
  }

  ghost predicate Divides(shape: map<string, int>, key: string, n: nat)
    requires n > 0
  {
    key in shape && shape[key] % n == 0
  }

  /** The only stage that cannot be narrowed: a count of elements for no channels. */
  ghost predicate NoChannels(shape: map<string, int>, full: int) {
    full == 0 && S.Entry(shape, "OC") != 0 && S.Entry(shape, "C") != 0 && S.Entry(shape, "n") > 0
  }

  /** The op has a tensor to cut and a channel count that the tiles divide. */
  ghost predicate CanTile(o: Op, n: nat)
    requires n > 0
  {
    && o.outputs != []
    && if o.body.kind == "linear_s8" then Divides(o.body.shape, "N", n)
       else if o.body.kind == "conv2d_s8" then Divides(o.body.shape, "OC", n)
       else exists i: nat :: FirstConv(o.subOps, i) && CutsAt(o, i, n)
  }

  ghost predicate CutsAt(o: Op, i: nat, n: nat)
    requires n > 0 && i < |o.subOps|
  {
    && Divides(o.subOps[i].body.shape, "OC", n)
    && forall sub :: sub in o.subOps ==> !NoChannels(sub.body.shape, o.subOps[i].body.shape["OC"])
  }

  lemma {:induction false} ConvStageIs(subs: seq<Op>, i: nat)
    ensures FirstConv(subs, i) ==> S.ConvStage(subs) == Some(subs[i])
    ensures S.ConvStage(subs).Some? ==> exists j: nat :: FirstConv(subs, j)
  {
    if subs != [] {
      if "conv2d" <= subs[0].body.kind && subs[0].body.shape != map[] {
        assert FirstConv(subs, 0);
      } else {
        ConvStageIs(subs[1..], if i > 0 then i - 1 else 0);
        if i > 0 && FirstConv(subs, i) {
          assert forall j :: 0 <= j < i - 1 ==> subs[1..][j] == subs[j + 1];
          assert FirstConv(subs[1..], i - 1);
        }
        if j: nat :| FirstConv(subs[1..], j) {
          assert forall l :: 1 <= l < j + 1 ==> subs[l] == subs[1..][l - 1];
          assert FirstConv(subs, j + 1);
        }
      }
    }
  }

  lemma StageNarrows(sub: Op, inside: set<Name>, full: int, width: int, id: int, t: nat)
    ensures S.TiledStage(sub, inside, full, width, id, t).Ok? <==> !NoChannels(sub.body.shape, full)
  {
    hide S.Renamed;
  }

  lemma {:induction false} AllTilesOk(o: Op, id: int, n: nat, full: int, width: int, k: nat)
    requires o.outputs != [] && k <= n
    ensures (forall sub :: sub in o.subOps ==> !NoChannels(sub.body.shape, full)) ==> S.FusedTilesTo(o, id, n, full, width, k).Ok?
    ensures S.FusedTilesTo(o, id, n, full, width, k).Ok? && k > 0 ==> forall sub :: sub in o.subOps ==> !NoChannels(sub.body.shape, full)
  {
    if k > 0 {
      AllTilesOk(o, id, n, full, width, k - 1);
      OneTileOk(o, id, n, full, width, k - 1);
      hide S.FusedTile, NoChannels;
    }
  }

  lemma OneTileOk(o: Op, id: int, n: nat, full: int, width: int, t: nat)
    requires o.outputs != []
    ensures S.FusedTile(o, id, n, full, width, t).Ok? <==> forall sub :: sub in o.subOps ==> !NoChannels(sub.body.shape, full)
  {
    hide NoChannels, S.TiledStage, TileName;
    forall i | 0 <= i < |o.subOps|
      ensures S.TiledStage(o.subOps[i], S.Inside(o.subOps), full, width, id, t).Ok? <==> !NoChannels(o.subOps[i].body.shape, full)
    {
      StageNarrows(o.subOps[i], S.Inside(o.subOps), full, width, id, t);
    }
  }

  /** An op is cut exactly when it can be. */
  lemma TilesIff(o: Op, id: int, n: nat)
    requires n >= 2
    ensures S.TilesOf(o, id, n).Ok? <==> CanTile(o, n)
  {
    hide TileName, NoChannels, S.FusedTilesTo;
    if o.body.kind != "linear_s8" && o.body.kind != "conv2d_s8" {
      ConvStageIs(o.subOps, 0);
      if i: nat :| FirstConv(o.subOps, i) {
        ConvStageIs(o.subOps, i);
        forall j: nat | FirstConv(o.subOps, j)
          ensures j == i
        {
        }
        if o.outputs != [] && "OC" in o.subOps[i].body.shape {
          var full := o.subOps[i].body.shape["OC"];
          AllTilesOk(o, id, n, full, full / n, n);
        }
      }
    }
  }

  lemma SpecIs(ops: seq<Op>, spec: S.Spec)
    requires UniqueIds(ops)
    ensures S.SpecError(spec, ById(ops)).None? <==> SpecFine(ops, spec)
  {
    ByIdHas(ops, spec.0);
    if o :| o in ops && o.id == Some(spec.0) {
      var i :| 0 <= i < |ops| && ops[i] == o;
      ByIdAt(ops, i);
    }
  }

  lemma {:induction false} StepsIff(ops: seq<Op>, tensors: S.Tensors, targets: map<int, int>, k: nat)
    requires k <= |ops|
    ensures S.Steps(ops, tensors, targets, k).Ok? <==> forall i :: 0 <= i < k && S.Chosen(targets, ops[i]) ==> CanTile(ops[i], targets[ops[i].id.value])
  {
    if k > 0 {
      StepsIff(ops, tensors, targets, k - 1);
      if S.Chosen(targets, ops[k - 1]) {
        TilesIff(ops[k - 1], ops[k - 1].id.value, targets[ops[k - 1].id.value]);
      }
      hide S.TilesOf, CanTile, S.Register;
    }
  }

  /** A hint is carried out exactly when every entry is fine and every op asked for can be cut. */
  lemma SplitIff(ops: seq<Op>, tensors: S.Tensors, hint: seq<S.Spec>)
    requires UniqueIds(ops) && hint != []
    ensures S.Outcome(ops, tensors, hint).Ok? <==>
      && (forall i :: 0 <= i < |hint| ==> SpecFine(ops, hint[i]))
      && forall o :: o in ops && S.Chosen(S.Targets(hint), o) ==> CanTile(o, S.Targets(hint)[o.id.value])
  {
    forall i | 0 <= i < |hint|
      ensures S.SpecError(hint[i], ById(ops)).None? <==> SpecFine(ops, hint[i])
    {
      SpecIs(ops, hint[i]);
    }
    StepsIff(ops, tensors, S.Targets(hint), |ops|);
    hide S.Steps, S.Targets, S.SpecError, SpecFine, CanTile, UniqueIds, ById, S.RewireAll;
  }
}
