/** Splitting keeps what the graph computes (pipeline/apply_split_hint.py).

    The rewritten list is run tile by tile, each with its recorded offset, and a reader of a split
    tensor sees the join of its tiles. Whatever order the dependencies allow, every tensor then has
    the value it had, and the rewritten list is ready to be split again. */
module SplitMeaning {
  import opened Ir
  import opened Seqs
  import opened Names
  import opened Fusion
  import FR = FusionRewrite
  import opened Renumbering
  import opened Schedules
  import T = Tiles
  import S = Split
  import opened SplitKernels
  import opened TileMeaning
  import opened SplitRuns
  import SF = SplitFacts
  import opened Schedulable

  // ---------------------------------------------------------------- what becomes of an op

  /** The tiles of an op, or the op itself. */
  function PiecesOf(o: Op, targets: map<int, int>): seq<Op> {
    if S.Chosen(targets, o) && S.TilesOf(o, o.id.value, targets[o.id.value]).Ok?
    then S.TilesOf(o, o.id.value, targets[o.id.value]).value else [o]
  }

  function Placed(p: Op, v: int): Op { p.(id := Some(v)) }

  /** `p` is piece `i` of `o`, with the new id kept for it. */
  ghost predicate PieceAt(o: Op, targets: map<int, int>, remap: map<int, seq<int>>, i: nat, p: Op) {
    && o.id.Some? && o.id.value in remap && |remap[o.id.value]| == |PiecesOf(o, targets)|
    && i < |PiecesOf(o, targets)| && p == Placed(PiecesOf(o, targets)[i], remap[o.id.value][i])
  }

  ghost predicate PiecesPlaced(o: Op, targets: map<int, int>, s: S.Pass) {
    && o.id.Some? && o.id.value in s.remap && |s.remap[o.id.value]| == |PiecesOf(o, targets)|
    && forall i: nat :: i < |PiecesOf(o, targets)| ==> Placed(PiecesOf(o, targets)[i], s.remap[o.id.value][i]) in s.ops
  }

  ghost predicate IsPiece(p: Op, ops: seq<Op>, k: nat, targets: map<int, int>, remap: map<int, seq<int>>)
    requires k <= |ops|
  {
    exists j: nat, i: nat :: j < k && PieceAt(ops[j], targets, remap, i, p)
  }

  ghost predicate AllPlaced(ops: seq<Op>, k: nat, targets: map<int, int>, s: S.Pass)
    requires k <= |ops|
  {
    && (forall j: nat :: j < k ==> PiecesPlaced(ops[j], targets, s))
    && (forall p :: p in s.ops ==> IsPiece(p, ops, k, targets, s.remap))
  }

  ghost predicate Adds(o: Op, targets: map<int, int>, s: S.Pass, t: S.Pass) {
    && o.id.Some? && S.Step(s, o, targets) == Ok(t)
    && t.remap == s.remap[o.id.value := IdRange(s.next, |PiecesOf(o, targets)|)]
    && |t.ops| == |s.ops| + |PiecesOf(o, targets)| && t.ops[..|s.ops|] == s.ops
    && forall i: nat :: i < |PiecesOf(o, targets)| ==> t.ops[|s.ops| + i] == Placed(PiecesOf(o, targets)[i], s.next + i)
  }

  lemma StepAdds(o: Op, targets: map<int, int>, s: S.Pass, t: S.Pass)
    requires o.id.Some? && S.Step(s, o, targets) == Ok(t)
    ensures Adds(o, targets, s, t)
  {
    hide S.TilesOf, S.Register;
    if S.Chosen(targets, o) {
      var tiles := S.TilesOf(o, o.id.value, targets[o.id.value]).value;
      assert PiecesOf(o, targets) == tiles;
    } else {
      assert PiecesOf(o, targets) == [o];
      assert IdRange(s.next, 1) == [s.next];
    }
  }

  lemma OldPieces(o: Op, x: Op, targets: map<int, int>, s: S.Pass, t: S.Pass)
    requires Adds(o, targets, s, t) && PiecesPlaced(x, targets, s) && x.id != o.id
    ensures PiecesPlaced(x, targets, t)
  {
    hide S.Step, PiecesOf, IdRange;
    assert forall p :: p in s.ops ==> p in t.ops by { assert t.ops == s.ops + t.ops[|s.ops|..]; }
  }

  lemma NewPieces(o: Op, targets: map<int, int>, s: S.Pass, t: S.Pass)
    requires Adds(o, targets, s, t)
    ensures PiecesPlaced(o, targets, t)
  {
    hide S.Step, PiecesOf;
    forall i: nat | i < |PiecesOf(o, targets)|
      ensures Placed(PiecesOf(o, targets)[i], t.remap[o.id.value][i]) in t.ops
    {
      assert t.remap[o.id.value][i] == s.next + i;
      assert t.ops[|s.ops| + i] in t.ops;
    }
  }

  lemma StillPiece(p: Op, ops: seq<Op>, k: nat, targets: map<int, int>, s: S.Pass, t: S.Pass)
    requires UniqueIds(ops) && k < |ops| && Adds(ops[k], targets, s, t) && p in t.ops
    requires p in s.ops ==> IsPiece(p, ops, k, targets, s.remap)
    ensures IsPiece(p, ops, k + 1, targets, t.remap)
  {
    hide S.Step, PiecesOf;
    var a :| 0 <= a < |t.ops| && t.ops[a] == p;
    if a < |s.ops| {
      assert p == s.ops[a] by { assert t.ops[..|s.ops|][a] == t.ops[a]; }
      var j: nat, i: nat :| j < k && PieceAt(ops[j], targets, s.remap, i, p);
      assert ops[j].id != ops[k].id;
      assert PieceAt(ops[j], targets, t.remap, i, p);
    } else {
      assert PieceAt(ops[k], targets, t.remap, a - |s.ops|, p);
    }
  }

  lemma {:induction false} StepsPlace(ops: seq<Op>, tensors: S.Tensors, targets: map<int, int>, k: nat)
    requires UniqueIds(ops) && k <= |ops| && (forall o :: o in ops ==> o.id.Some?) && S.Steps(ops, tensors, targets, k).Ok?
    ensures AllPlaced(ops, k, targets, S.Steps(ops, tensors, targets, k).value)
  {
    hide S.Step, PiecesOf, UniqueIds, PiecesPlaced, IsPiece, Adds;
    if k > 0 {
      StepsPlace(ops, tensors, targets, k - 1);
      var s, t := S.Steps(ops, tensors, targets, k - 1).value, S.Steps(ops, tensors, targets, k).value;
      StepAdds(ops[k - 1], targets, s, t);
      forall j: nat | j < k
        ensures PiecesPlaced(ops[j], targets, t)
      {
        if j < k - 1 {
          IdsDiffer(ops, j, k - 1);
          OldPieces(ops[k - 1], ops[j], targets, s, t);
        } else {
          NewPieces(ops[k - 1], targets, s, t);
        }
      }
      forall p | p in t.ops
        ensures IsPiece(p, ops, k, targets, t.remap)
      {
        StillPiece(p, ops, k - 1, targets, s, t);
      }
    }
  }

  lemma IdsDiffer(ops: seq<Op>, i: nat, j: nat)
    requires UniqueIds(ops) && i < j < |ops| && ops[i].id.Some? && ops[j].id.Some?
    ensures ops[i].id != ops[j].id
  {
  }

  lemma {:induction false} StepsTile(ops: seq<Op>, tensors: S.Tensors, targets: map<int, int>, k: nat, o: Op)
    requires k <= |ops| && S.Steps(ops, tensors, targets, k).Ok? && o in ops[..k] && S.Chosen(targets, o)
    ensures S.TilesOf(o, o.id.value, targets[o.id.value]).Ok?
  {
    hide S.TilesOf, S.Register;
    if o != ops[k - 1] {
      assert ops[..k] == ops[..k - 1] + [ops[k - 1]];
      StepsTile(ops, tensors, targets, k - 1, o);
    }
  }

  // ---------------------------------------------------------------- one split

  /** A split: the list, the tile counts asked for, what was joined before, the id remap and the result. */
  datatype Cut = Cut(ops: seq<Op>, targets: map<int, int>, before: Joins, remap: map<int, seq<int>>, news: seq<Op>)

  /** How the result of a split op is put together, from its tiles' own shapes. */
  function JoinOf(o: Op, targets: map<int, int>): Join
    requires S.Chosen(targets, o)
  {
    if PiecesOf(o, targets) == [] then Join(0, 0, 0, 0)
    else
      var g := Geometry(PiecesOf(o, targets)[0]);
      Join(targets[o.id.value], g.0, g.1, g.2)
  }

  function JoinsOf(ops: seq<Op>, targets: map<int, int>): Joins {
    if ops == [] then map[]
    else
      var joins, o := JoinsOf(ops[..|ops| - 1], targets), ops[|ops| - 1];
      if S.Chosen(targets, o) && o.outputs != [] then joins[o.outputs[0] := JoinOf(o, targets)] else joins
  }

  /** The tensors that are joins after the split. */
  function AllJoins(c: Cut): Joins { c.before + JoinsOf(c.ops, c.targets) }

  ghost predicate CutsTensor(ops: seq<Op>, targets: map<int, int>, o: Op, t: Name) {
    o in ops && S.Chosen(targets, o) && o.outputs != [] && o.outputs[0] == t
  }

  lemma {:induction false} JoinsHave(ops: seq<Op>, targets: map<int, int>, t: Name)
    ensures t in JoinsOf(ops, targets) <==> exists o :: CutsTensor(ops, targets, o, t)
    ensures t in JoinsOf(ops, targets) ==> exists o :: CutsTensor(ops, targets, o, t) && JoinsOf(ops, targets)[t] == JoinOf(o, targets)
  {
    hide JoinOf, S.Chosen;
    if ops != [] {
      var init, last := ops[..|ops| - 1], ops[|ops| - 1];
      JoinsHave(init, targets, t);
      assert forall o :: o in ops <==> o in init || o == last by { assert ops == init + [last]; }
      if t in JoinsOf(ops, targets) {
        if S.Chosen(targets, last) && last.outputs != [] && last.outputs[0] == t {
          assert CutsTensor(ops, targets, last, t);
        } else {
          var o :| CutsTensor(init, targets, o, t) && JoinsOf(init, targets)[t] == JoinOf(o, targets);
          assert CutsTensor(ops, targets, o, t);
        }
      }
      if o :| CutsTensor(ops, targets, o, t) {
        if o in init {
          assert CutsTensor(init, targets, o, t);
        }
      }
    }
  }

  lemma JoinIs(ops: seq<Op>, targets: map<int, int>, o: Op)
    requires SingleMaker(ops) && o in ops && S.Chosen(targets, o) && o.outputs != []
    ensures o.outputs[0] in JoinsOf(ops, targets) && JoinsOf(ops, targets)[o.outputs[0]] == JoinOf(o, targets)
  {
    hide JoinOf, S.Chosen;
    var t := o.outputs[0];
    JoinsHave(ops, targets, t);
    assert CutsTensor(ops, targets, o, t);
    var p :| CutsTensor(ops, targets, p, t) && JoinsOf(ops, targets)[t] == JoinOf(p, targets);
    assert p.outputs[0] in p.outputs;
    assert o == p;
  }

  /** `p` is what the rewritten list has as piece `i` of `o`. */
  ghost predicate Piece(c: Cut, o: Op, i: nat, p: Op) {
    && o in c.ops && o.id.Some? && o.id.value in c.remap && |c.remap[o.id.value]| == |PiecesOf(o, c.targets)|
    && i < |PiecesOf(o, c.targets)| && p == S.Rewired(Placed(PiecesOf(o, c.targets)[i], c.remap[o.id.value][i]), c.remap)
  }

  ghost predicate HasPieces(c: Cut, p: Op) {
    exists o, i: nat :: Piece(c, o, i, p)
  }

  ghost predicate PieceThere(c: Cut, o: Op, i: nat) {
    exists p :: p in c.news && Piece(c, o, i, p)
  }

  /** What the rewriter makes of the list. */
  ghost predicate IsCut(c: Cut) {
    && DistinctIds(c.news)
    && (forall o :: o in c.ops && S.Chosen(c.targets, o) ==> S.TilesOf(o, o.id.value, c.targets[o.id.value]).Ok?)
    && (forall o, i: nat :: o in c.ops && i < |PiecesOf(o, c.targets)| ==> PieceThere(c, o, i))
    && (forall p :: p in c.news ==> HasPieces(c, p))
  }

  lemma SplitSteps(ops: seq<Op>, tensors: S.Tensors, hint: seq<S.Spec>, r: S.Tiled) returns (s: S.Pass)
    requires SF.Splits(ops, tensors, hint, r)
    ensures S.Steps(ops, tensors, S.Targets(hint), |ops|) == Ok(s)
    ensures UniqueIds(ops) && r.idRemap == Some(s.remap) && r.ops == S.RewireAll(s.ops, s.remap)
  {
    hide S.Steps, S.HintError, S.RewireAll, UniqueIds;
    s := S.Steps(ops, tensors, S.Targets(hint), |ops|).value;
  }

  lemma PiecesAreThere(c: Cut, s: S.Pass)
    requires AllPlaced(c.ops, |c.ops|, c.targets, s) && s.remap == c.remap && c.news == S.RewireAll(s.ops, s.remap)
    ensures forall o, i: nat :: o in c.ops && i < |PiecesOf(o, c.targets)| ==> PieceThere(c, o, i)
    ensures forall p :: p in c.news ==> HasPieces(c, p) && p.id.Some?
  {
    hide PiecesOf, PieceAt, PiecesPlaced, PieceThere, HasPieces, S.Rewired;
    forall p | p in c.news
      ensures HasPieces(c, p) && p.id.Some?
    {
      var a :| 0 <= a < |c.news| && c.news[a] == p;
      assert s.ops[a] in s.ops && p == S.Rewired(s.ops[a], s.remap);
      var j: nat, i: nat :| j < |c.ops| && PieceAt(c.ops[j], c.targets, s.remap, i, s.ops[a]);
      PieceFrom(c, c.ops[j], i, s.ops[a], p);
    }
    forall o, i: nat | o in c.ops && i < |PiecesOf(o, c.targets)|
      ensures PieceThere(c, o, i)
    {
      var j :| 0 <= j < |c.ops| && c.ops[j] == o;
      PieceGoes(c, o, i, s);
    }
  }

  lemma SplitIsCut(ops: seq<Op>, tensors: S.Tensors, hint: seq<S.Spec>, r: S.Tiled, before: Joins) returns (c: Cut)
    requires SF.Splits(ops, tensors, hint, r) && DistinctIds(ops)
    ensures r.idRemap.Some? && c == Cut(ops, S.Targets(hint), before, r.idRemap.value, r.ops) && IsCut(c)
  {
    var targets := S.Targets(hint);
    var s := SplitSteps(ops, tensors, hint, r);
    c := Cut(ops, targets, before, s.remap, r.ops);
    AllHaveIds(ops);
    hide *;
    SF.RenumberingCounts(ops, tensors, hint, r);
    CountedIsUnique(r.ops);
    StepsPlace(ops, tensors, targets, |ops|);
    PiecesAreThere(c, s);
    DistinctFromUnique(r.ops);
    forall o | o in ops && S.Chosen(targets, o)
      ensures S.TilesOf(o, o.id.value, targets[o.id.value]).Ok?
    {
      assert ops[..|ops|] == ops;
      StepsTile(ops, tensors, targets, |ops|, o);
    }
    ToIsCut(c);
  }

  lemma AllHaveIds(ops: seq<Op>)
    requires DistinctIds(ops)
    ensures forall o :: o in ops ==> o.id.Some?
  {
  }

  lemma ToIsCut(c: Cut)
    requires DistinctIds(c.news)
    requires forall o :: o in c.ops && S.Chosen(c.targets, o) ==> S.TilesOf(o, o.id.value, c.targets[o.id.value]).Ok?
    requires forall o, i: nat :: o in c.ops && i < |PiecesOf(o, c.targets)| ==> PieceThere(c, o, i)
    requires forall p :: p in c.news ==> HasPieces(c, p)
    ensures IsCut(c)
  {
    hide S.TilesOf, S.Chosen, PiecesOf, PieceThere, HasPieces, DistinctIds;
  }

  lemma DistinctFromUnique(ops: seq<Op>)
    requires UniqueIds(ops) && forall o :: o in ops ==> o.id.Some?
    ensures DistinctIds(ops)
  {
  }

  lemma PieceFrom(c: Cut, o: Op, i: nat, q: Op, p: Op)
    requires o in c.ops && PieceAt(o, c.targets, c.remap, i, q) && p == S.Rewired(q, c.remap)
    ensures HasPieces(c, p) && p.id.Some?
  {
    hide PiecesOf;
    assert Piece(c, o, i, p);
  }

  lemma PieceGoes(c: Cut, o: Op, i: nat, s: S.Pass)
    requires o in c.ops && PiecesPlaced(o, c.targets, s) && s.remap == c.remap && c.news == S.RewireAll(s.ops, s.remap) && i < |PiecesOf(o, c.targets)|
    ensures PieceThere(c, o, i)
  {
    hide PiecesOf;
    var q := Placed(PiecesOf(o, c.targets)[i], c.remap[o.id.value][i]);
    var a :| 0 <= a < |s.ops| && s.ops[a] == q;
    assert c.news[a] == S.Rewired(q, c.remap);
    assert Piece(c, o, i, c.news[a]);
  }

  // ---------------------------------------------------------------- pieces

  /** The tile that stands for part `i` of `o`. */
  ghost predicate IsTilePiece(c: Cut, o: Op, i: nat, p: Op) {
    && S.Chosen(c.targets, o) && i < c.targets[o.id.value] && |PiecesOf(o, c.targets)| == c.targets[o.id.value]
    && o.outputs != [] && p.outputs == [TileName(o.outputs[0], i)] && p.origin.Tile?
  }

  ghost predicate IsSame(c: Cut, o: Op, p: Op) {
    !S.Chosen(c.targets, o) && p.body == o.body && p.outputs == o.outputs && p.subOps == o.subOps && p.origin == o.origin
  }

  lemma PieceFacts(c: Cut, o: Op, i: nat, p: Op)
    requires IsCut(c) && Piece(c, o, i, p)
    ensures p.id == Some(c.remap[o.id.value][i]) && p.inputs == o.inputs
    ensures forall e :: e in p.deps <==> exists d :: d in o.deps && d in c.remap && e in c.remap[d]
    ensures if S.Chosen(c.targets, o) then IsTilePiece(c, o, i, p) else IsSame(c, o, p)
  {
    var q := PiecesOf(o, c.targets)[i];
    assert q.deps == o.deps && q.inputs == o.inputs && (if S.Chosen(c.targets, o) then IsTilePiece(c, o, i, q) else q == o) by {
      hide S.TilesOf, TileName;
      if S.Chosen(c.targets, o) {
        var n := c.targets[o.id.value];
        var full := SF.TilesAre(o, o.id.value, n, PiecesOf(o, c.targets));
        assert SF.IsTile(o, o.id.value, n, full / n, q, i);
      }
    }
    hide PiecesOf, S.TilesOf, TileName, IsCut, S.Spread, FR.OrderedUnique;
    FR.UniqueKeepsMembers(S.Spread(q.deps, c.remap));
    forall e
      ensures e in p.deps <==> exists d :: d in o.deps && d in c.remap && e in c.remap[d]
    {
      SF.InSpread(q.deps, c.remap, e);
    }
  }

  // ---------------------------------------------------------------- what a split asks of the list

  /** Nothing uses the names of the new tiles yet. */
  ghost predicate Fresh(c: Cut) {
    forall p, i: nat :: TileOf(JoinsOf(c.ops, c.targets), p, i) ==> UnusedName(c, TileName(p, i))
  }

  ghost predicate UnusedName(c: Cut, t: Name) {
    t !in c.before && forall o :: o in c.ops ==> t !in o.inputs && t !in o.outputs
  }

  /** The ops to be split are layers that can be cut, and no tiles themselves. */
  ghost predicate CanSplit(sim: Simulator, c: Cut) {
    Runnable(c.before, c.ops) && Fresh(c) && forall o :: o in c.ops && S.Chosen(c.targets, o) ==> Fits(sim, o) && !o.origin.Tile?
  }

  lemma ChosenParts(sim: Simulator, c: Cut, o: Op)
    requires CanSplit(sim, c) && o in c.ops && S.Chosen(c.targets, o)
    ensures |o.outputs| == 1 && |o.outputs| > 0 && !o.origin.Tile? && Fits(sim, o)
  {
    hide Runnable, Fresh, S.Chosen;
    if o.body.kind != "linear_s8" && o.body.kind != "conv2d_s8" {
      ChainParts(sim, o);
    }
  }

  /** What a split op made is joined now, from as many tiles as were asked for. */
  lemma ChosenJoin(sim: Simulator, c: Cut, o: Op)
    requires CanSplit(sim, c) && o in c.ops && S.Chosen(c.targets, o) && S.TilesOf(o, o.id.value, c.targets[o.id.value]).Ok?
    ensures o.outputs != [] && o.outputs[0] in JoinsOf(c.ops, c.targets) && o.outputs[0] !in c.before
    ensures JoinsOf(c.ops, c.targets)[o.outputs[0]] == JoinOf(o, c.targets)
    ensures JoinOf(o, c.targets).tiles == c.targets[o.id.value]
  {
    ChosenParts(sim, c, o);
    assert o.outputs[0] in o.outputs;
    assert SingleMaker(c.ops) && o.outputs[0] !in c.before by { hide Fits, SelfContained; }
    hide CanSplit, Fits, TileName;
    JoinIs(c.ops, c.targets, o);
    var full := SF.TilesAre(o, o.id.value, c.targets[o.id.value], PiecesOf(o, c.targets));
  }

  lemma JoinedIsChosen(c: Cut, p: Name) returns (o: Op)
    requires p in JoinsOf(c.ops, c.targets)
    ensures o in c.ops && S.Chosen(c.targets, o) && o.outputs != [] && o.outputs[0] == p && p in o.outputs
    ensures JoinsOf(c.ops, c.targets)[p] == JoinOf(o, c.targets)
  {
    hide JoinOf, S.Chosen;
    JoinsHave(c.ops, c.targets, p);
    o :| CutsTensor(c.ops, c.targets, o, p) && JoinsOf(c.ops, c.targets)[p] == JoinOf(o, c.targets);
  }

  /** The name of a tile made by piece `i` of a split op. */
  lemma TileIsNew(sim: Simulator, c: Cut, o: Op, i: nat, p: Op)
    requires CanSplit(sim, c) && IsCut(c) && Piece(c, o, i, p) && IsTilePiece(c, o, i, p)
    ensures o.outputs != [] && TileOf(JoinsOf(c.ops, c.targets), o.outputs[0], i) && UnusedName(c, TileName(o.outputs[0], i))
  {
    assert o in c.ops && S.TilesOf(o, o.id.value, c.targets[o.id.value]).Ok? by { hide PiecesOf, Placed; }
    hide PiecesOf, IsCut, Piece, TileName, JoinOf, UnusedName, S.TilesOf;
    ChosenJoin(sim, c, o);
    assert Fresh(c);
  }

  // ---------------------------------------------------------------- the result is ready

  /** An old op that reads, directly or through a join, what an old op makes, depends on it. */
  lemma OldEdge(c: Cut, o: Op, p: Op, t: Name)
    requires Runnable(c.before, c.ops) && o in c.ops && p in c.ops && Needs(c.before, o, t) && t in p.outputs
    ensures p.id.Some? && p.id.value in o.deps
  {
    hide Needs, SelfContained;
  }

  lemma EdgeSpreads(c: Cut, o: Op, i: nat, o2: Op, p: Op, l: nat, p2: Op)
    requires IsCut(c) && Piece(c, o, i, o2) && Piece(c, p, l, p2) && p.id.Some? && p.id.value in o.deps
    ensures p2.id.Some? && p2.id.value in o2.deps
  {
    PieceId(c, p, l, p2);
    PieceDeps(c, o, i, o2, p.id.value, p2.id.value);
  }

  lemma PieceDeps(c: Cut, o: Op, i: nat, p: Op, d: int, e: int)
    requires IsCut(c) && Piece(c, o, i, p) && d in o.deps && d in c.remap && e in c.remap[d]
    ensures e in p.deps
  {
    PieceFacts(c, o, i, p);
    hide Piece, IsCut, IsTilePiece, IsSame;
  }

  lemma PieceId(c: Cut, o: Op, i: nat, p: Op)
    requires Piece(c, o, i, p)
    ensures o.id.Some? && o.id.value in c.remap && p.id.Some? && p.id.value in c.remap[o.id.value]
  {
    hide PiecesOf;
    assert c.remap[o.id.value][i] in c.remap[o.id.value];
  }

  /** What the new list reads from whom, the old list read from the op behind. */
  lemma NeedsBehind(sim: Simulator, c: Cut, o: Op, i: nat, o2: Op, p: Op, l: nat, p2: Op, t: Name) returns (u: Name)
    requires CanSplit(sim, c) && IsCut(c) && Piece(c, o, i, o2) && Piece(c, p, l, p2)
    requires Needs(AllJoins(c), o2, t) && t in p2.outputs
    ensures Needs(c.before, o, u) && u in p.outputs
  {
    PieceFacts(c, o, i, o2);
    PieceFacts(c, p, l, p2);
    PieceIn(c, o, i, o2);
    PieceIn(c, p, l, p2);
    hide Piece, IsCut, CanSplit, S.Chosen, PiecesOf, TileName, JoinsOf;
    var news := JoinsOf(c.ops, c.targets);
    if S.Chosen(c.targets, p) {
      TileIsNew(sim, c, p, l, p2);
      assert t == TileName(p.outputs[0], l) && t !in o.inputs;
      var q, x: nat :| TileOfInput(AllJoins(c), o2, q, x) && t == TileName(q, x);
      TileNamesDiffer(p.outputs[0], l, q, x);
      u := q;
    } else {
      u := t;
      if t !in o.inputs {
        var q, x: nat :| TileOfInput(AllJoins(c), o2, q, x) && t == TileName(q, x);
        NotNewTile(sim, c, p, q, x);
        assert TileOfInput(c.before, o, q, x);
      }
    }
  }

  lemma PieceIn(c: Cut, o: Op, i: nat, p: Op)
    requires Piece(c, o, i, p)
    ensures o in c.ops
  {
    hide PiecesOf, Placed;
  }

  lemma UnusedTile(sim: Simulator, c: Cut, q: Name, x: nat)
    requires CanSplit(sim, c) && TileOf(JoinsOf(c.ops, c.targets), q, x)
    ensures UnusedName(c, TileName(q, x))
  {
    hide UnusedName, TileName, JoinsOf, TileOf, Runnable;
  }

  /** What an op of the old list makes is not the name of a new tile. */
  lemma NotNewTile(sim: Simulator, c: Cut, p: Op, q: Name, x: nat)
    requires CanSplit(sim, c) && p in c.ops && TileName(q, x) in p.outputs
    ensures !TileOf(JoinsOf(c.ops, c.targets), q, x)
  {
    hide TileName, JoinsOf, TileOf, Runnable, Fits;
    if TileOf(JoinsOf(c.ops, c.targets), q, x) {
      UnusedTile(sim, c, q, x);
    }
  }

  lemma NewFlow(sim: Simulator, c: Cut, o2: Op, p2: Op, t: Name)
    requires CanSplit(sim, c) && IsCut(c) && o2 in c.news && p2 in c.news && Needs(AllJoins(c), o2, t) && t in p2.outputs
    ensures p2.id.Some? && p2.id.value in o2.deps
  {
    var o, i, p, l := TwoPieces(c, o2, p2);
    assert Runnable(c.before, c.ops);
    hide *;
    var u := NeedsBehind(sim, c, o, i, o2, p, l, p2, t);
    PieceIn(c, o, i, o2);
    PieceIn(c, p, l, p2);
    OldEdge(c, o, p, u);
    EdgeSpreads(c, o, i, o2, p, l, p2);
  }

  lemma TwoPieces(c: Cut, o2: Op, p2: Op) returns (o: Op, i: nat, p: Op, l: nat)
    requires IsCut(c) && o2 in c.news && p2 in c.news
    ensures Piece(c, o, i, o2) && Piece(c, p, l, p2)
  {
    hide Piece;
    assert HasPieces(c, o2) && HasPieces(c, p2);
    o, i :| Piece(c, o, i, o2);
    p, l :| Piece(c, p, l, p2);
  }

  lemma NewMaker(sim: Simulator, c: Cut, o2: Op, p2: Op, t: Name)
    requires CanSplit(sim, c) && IsCut(c) && o2 in c.news && p2 in c.news && t in o2.outputs && t in p2.outputs
    ensures o2 == p2
  {
    var o, i, p, l := TwoPieces(c, o2, p2);
    PieceFacts(c, o, i, o2);
    PieceFacts(c, p, l, p2);
    PieceIn(c, o, i, o2);
    PieceIn(c, p, l, p2);
    assert SingleMaker(c.ops) && DistinctIds(c.ops) by { hide SelfContained, Fits, Fresh; }
    assert o == p && i == l by {
      hide Piece, IsCut, CanSplit, S.Chosen, PiecesOf, TileName, JoinsOf, DistinctIds;
      if S.Chosen(c.targets, o) {
        TileIsNew(sim, c, o, i, o2);
        if S.Chosen(c.targets, p) {
          TileNamesDiffer(o.outputs[0], i, p.outputs[0], l);
          assert o.outputs[0] in o.outputs && o.outputs[0] in p.outputs;
        }
      } else if S.Chosen(c.targets, p) {
        TileIsNew(sim, c, p, l, p2);
      } else {
        assert t in o.outputs && t in p.outputs;
        OnePiece(c, o, i, o2);
        OnePiece(c, p, l, p2);
      }
    }
    SamePiece(c, o, i, o2, p2);
  }

  lemma OnePiece(c: Cut, o: Op, i: nat, p: Op)
    requires Piece(c, o, i, p) && !S.Chosen(c.targets, o)
    ensures i == 0
  {
    hide S.TilesOf;
  }

  lemma SamePiece(c: Cut, o: Op, i: nat, p: Op, q: Op)
    requires Piece(c, o, i, p) && Piece(c, o, i, q)
    ensures p == q
  {
    hide PiecesOf, Placed;
  }

  /** A tile is contained: its stages read its input and make its output. */
  lemma TileContained(o: Op, p: Op, i: nat)
    requires SelfContained(o) && Chained(o) && Chained(p) && p.subOps[0].inputs == o.subOps[0].inputs && p.inputs == o.inputs
    ensures SelfContained(p)
  {
    hide StagesSized;
    var known := iset t | t in o.inputs;
    FirstReads(o.subOps, known);
    LinkedContained(p.subOps, known);
    assert p.subOps[|p.subOps| - 1] in p.subOps;
  }

  lemma {:induction false} LinkedContained(ops: seq<Op>, known: iset<Name>)
    requires ops != [] ==> forall t :: t in ops[0].inputs ==> t in known
    requires forall i :: 0 <= i < |ops| ==> ops[i].subOps == []
    requires forall i :: 1 <= i < |ops| ==> ops[i].inputs == ops[i - 1].outputs
    ensures StagesContained(ops, known)
    decreases |ops|
  {
    if ops != [] {
      var rest := ops[1..];
      assert forall i :: 1 <= i < |rest| ==> rest[i] == ops[i + 1] && rest[i - 1] == ops[i];
      assert rest != [] ==> rest[0] == ops[1] && ops[1].inputs == ops[0].outputs;
      LinkedContained(rest, known + iset t | t in ops[0].outputs);
    }
  }

  lemma FirstReads(ops: seq<Op>, known: iset<Name>)
    requires ops != [] && StagesContained(ops, known)
    ensures forall t :: t in ops[0].inputs ==> t in known
  {
  }

  lemma NewContained(sim: Simulator, c: Cut, p: Op)
    requires CanSplit(sim, c) && IsCut(c) && p in c.news
    ensures SelfContained(p)
  {
    var o, i, q, l := TwoPieces(c, p, p);
    PieceFacts(c, o, i, p);
    PieceIn(c, o, i, p);
    assert SelfContained(o) by { hide SelfContained, Fits, Fresh; }
    if S.Chosen(c.targets, o) {
      ChosenParts(sim, c, o);
      var q := TilePiece(c, o, i, p);
      hide *;
      TileIsBuilt(sim, o, o.id.value, c.targets[o.id.value], PiecesOf(o, c.targets), i);
      if o.body.kind == "linear_s8" || o.body.kind == "conv2d_s8" {
        NoStages(p);
      } else {
        SameChain(q, p);
        TileContained(o, p, i);
      }
    } else {
      SameContained(o, p);
    }
  }

  /** A tile of the result is a tile of its op but for the new id and dependencies. */
  lemma TilePiece(c: Cut, o: Op, i: nat, p: Op) returns (q: Op)
    requires IsCut(c) && Piece(c, o, i, p) && S.Chosen(c.targets, o)
    ensures i < |PiecesOf(o, c.targets)| && q == PiecesOf(o, c.targets)[i] && i < c.targets[o.id.value]
    ensures S.TilesOf(o, o.id.value, c.targets[o.id.value]) == Ok(PiecesOf(o, c.targets))
    ensures p.body == q.body && p.inputs == q.inputs && p.outputs == q.outputs && p.subOps == q.subOps && p.origin == q.origin
  {
    PieceFacts(c, o, i, p);
    hide S.TilesOf;
    q := PiecesOf(o, c.targets)[i];
  }

  lemma SameChain(q: Op, p: Op)
    requires Chained(q) && p.subOps == q.subOps && p.outputs == q.outputs
    ensures Chained(p)
  {
    hide StagesSized;
  }

  lemma NoStages(p: Op)
    requires p.subOps == []
    ensures SelfContained(p)
  {
  }

  lemma SameContained(o: Op, p: Op)
    requires SelfContained(o) && p.subOps == o.subOps && p.inputs == o.inputs && p.outputs == o.outputs
    ensures SelfContained(p)
  {
  }

  lemma OldMakes(c: Cut, o: Op, t: Name)
    requires Runnable(c.before, c.ops) && o in c.ops && t in o.outputs
    ensures t !in c.before
  {
    hide SelfContained, Needs;
  }

  lemma OldTile(c: Cut, o: Op, p: Name, i: nat)
    requires Runnable(c.before, c.ops) && o in c.ops && TileOf(c.before, p, i) && TileName(p, i) in o.outputs
    ensures o.origin.Tile?
  {
    hide SelfContained, Needs, TileOf, TileName;
  }

  lemma OneMaker(c: Cut, o: Op, p: Op, t: Name)
    requires Runnable(c.before, c.ops) && o in c.ops && p in c.ops && t in o.outputs && t in p.outputs
    ensures o == p
  {
    hide SelfContained, Needs;
  }

  /** No op of the result makes what is joined. */
  lemma NewMakes(sim: Simulator, c: Cut, o2: Op, t: Name)
    requires CanSplit(sim, c) && IsCut(c) && o2 in c.news && t in o2.outputs
    ensures t !in AllJoins(c)
  {
    var o, i, q, l := TwoPieces(c, o2, o2);
    PieceFacts(c, o, i, o2);
    PieceIn(c, o, i, o2);
    assert Runnable(c.before, c.ops);
    hide Piece, IsCut, CanSplit, S.Chosen, PiecesOf, TileName, JoinsOf, Runnable, S.TilesOf;
    if S.Chosen(c.targets, o) {
      TileIsNew(sim, c, o, i, o2);
      if t in JoinsOf(c.ops, c.targets) {
        var p := JoinedIsChosen(c, t);
      }
    } else {
      OldMakes(c, o, t);
      if t in JoinsOf(c.ops, c.targets) {
        var p := JoinedIsChosen(c, t);
        OneMaker(c, o, p, t);
      }
    }
  }

  lemma NewTilesAreTiles(sim: Simulator, c: Cut, o2: Op, p: Name, x: nat)
    requires CanSplit(sim, c) && IsCut(c) && o2 in c.news && TileOf(AllJoins(c), p, x) && TileName(p, x) in o2.outputs
    ensures o2.origin.Tile?
  {
    var o, i, q, l := TwoPieces(c, o2, o2);
    PieceFacts(c, o, i, o2);
    PieceIn(c, o, i, o2);
    assert Runnable(c.before, c.ops);
    hide Piece, IsCut, CanSplit, S.Chosen, PiecesOf, TileName, JoinsOf, Runnable, S.TilesOf;
    if !S.Chosen(c.targets, o) {
      NotNewTile(sim, c, o, p, x);
      OldTile(c, o, p, x);
    }
  }

  /** The result can be run in any order its dependencies allow, and split again. */
  lemma ResultIsRunnable(sim: Simulator, c: Cut)
    requires CanSplit(sim, c) && IsCut(c)
    ensures Runnable(AllJoins(c), c.news)
  {
    assert DistinctIds(c.news);
    hide CanSplit, IsCut, AllJoins, SelfContained, Needs, TileName, TileOf, DistinctIds;
    forall o, p, t | o in c.news && p in c.news && Needs(AllJoins(c), o, t) && t in p.outputs
      ensures p.id.Some? && p.id.value in o.deps
    {
      NewFlow(sim, c, o, p, t);
    }
    forall o, p, t | o in c.news && p in c.news && t in o.outputs && t in p.outputs
      ensures o == p
    {
      NewMaker(sim, c, o, p, t);
    }
    forall o | o in c.news
      ensures SelfContained(o)
    {
      NewContained(sim, c, o);
    }
    forall o, t | o in c.news && t in o.outputs
      ensures t !in AllJoins(c)
    {
      NewMakes(sim, c, o, t);
    }
    forall o, p, i: nat | o in c.news && TileOf(AllJoins(c), p, i) && TileName(p, i) in o.outputs
      ensures o.origin.Tile?
    {
      NewTilesAreTiles(sim, c, o, p, i);
    }
  }

  // ---------------------------------------------------------------- the old list's view of the new values

  ghost predicate IsNewTile(c: Cut, t: Name) {
    exists p, i: nat :: TileOf(JoinsOf(c.ops, c.targets), p, i) && t == TileName(p, i)
  }

  /** Split tensors as the join of their tiles, and no tiles. */
  ghost function OldView(c: Cut, given: Env, e: Env): Env {
    map t | t in e.Keys + given.Keys + JoinsOf(c.ops, c.targets).Keys ::
      if t in JoinsOf(c.ops, c.targets) then JoinedValue(JoinsOf(c.ops, c.targets)[t], t, e)
      else if IsNewTile(c, t) then Read(given, t) else Read(e, t)
  }

  lemma OldViewReads(c: Cut, given: Env, e: Env, t: Name)
    ensures t in JoinsOf(c.ops, c.targets) ==> Read(OldView(c, given, e), t) == JoinedValue(JoinsOf(c.ops, c.targets)[t], t, e)
    ensures t !in JoinsOf(c.ops, c.targets) ==> Read(OldView(c, given, e), t) == Read(if IsNewTile(c, t) then given else e, t)
  {
    hide JoinsOf, JoinedValue, IsNewTile;
  }

  /** The tiles of an earlier split are left alone. */
  lemma OldPartsStay(sim: Simulator, c: Cut, given: Env, e: Env, x: Name)
    requires CanSplit(sim, c) && x in c.before && x !in JoinsOf(c.ops, c.targets)
    ensures JoinedValue(c.before[x], x, OldView(c, given, e)) == JoinedValue(c.before[x], x, e)
  {
    assert Runnable(c.before, c.ops);
    hide CanSplit, Runnable, JoinsOf, TileName, OldView, S.Chosen, JoinOf;
    var v := OldView(c, given, e);
    forall i: nat | i < c.before[x].tiles
      ensures Read(v, TileName(x, i)) == Read(e, TileName(x, i))
    {
      var t := TileName(x, i);
      OldViewReads(c, given, e, t);
      if t in JoinsOf(c.ops, c.targets) {
        var q := JoinedIsChosen(c, t);
        OldTile(c, q, x, i);
        ChosenParts(sim, c, q);
        assert false;
      }
      if IsNewTile(c, t) {
        var p, l: nat :| TileOf(JoinsOf(c.ops, c.targets), p, l) && t == TileName(p, l);
        TileNamesDiffer(x, i, p, l);
      }
    }
    assert PartsOf(c.before[x], x, v) == PartsOf(c.before[x], x, e);
  }

  /** An old op sees in the old view what its pieces see. */
  lemma ViewsAgree(sim: Simulator, c: Cut, given: Env, e: Env, o: Op)
    requires CanSplit(sim, c) && o in c.ops
    ensures Agree(Viewed(AllJoins(c), e), Viewed(c.before, OldView(c, given, e)), iset t | t in o.inputs)
  {
    assert Runnable(c.before, c.ops);
    hide CanSplit, Runnable, JoinsOf, TileName, OldView, S.Chosen, JoinOf, JoinedValue, Viewed;
    var v := OldView(c, given, e);
    forall x | x in o.inputs
      ensures Read(Viewed(AllJoins(c), e), x) == Read(Viewed(c.before, v), x)
    {
      ViewedReads(AllJoins(c), e, x);
      ViewedReads(c.before, v, x);
      OldViewReads(c, given, e, x);
      if x in JoinsOf(c.ops, c.targets) {
        var q := JoinedIsChosen(c, x);
        OldMakes(c, q, x);
      } else if x in c.before {
        OldPartsStay(sim, c, given, e, x);
      } else {
        ReadIsNoNewTile(sim, c, o, x);
      }
    }
  }

  lemma ReadIsNoNewTile(sim: Simulator, c: Cut, o: Op, x: Name)
    requires CanSplit(sim, c) && o in c.ops && (x in o.inputs || x in o.outputs)
    ensures !IsNewTile(c, x)
  {
    hide CanSplit, JoinsOf, TileName, TileOf;
    if IsNewTile(c, x) {
      var p, i: nat :| TileOf(JoinsOf(c.ops, c.targets), p, i) && x == TileName(p, i);
      UnusedTile(sim, c, p, i);
    }
  }

  /** An op that was kept satisfies its equation in the old view. */
  lemma SameHolds(k: Located, sim: Simulator, c: Cut, given: Env, e: Env, o: Op)
    requires CanSplit(sim, c) && IsCut(c) && o in c.ops && !S.Chosen(c.targets, o) && SolvesAt(k, AllJoins(c), c.news, given, e)
    ensures HoldsAt(k, c.before, o, OldView(c, given, e))
  {
    var p := KeptPiece(c, o);
    assert HoldsAt(k, AllJoins(c), p, e);
    assert Runnable(c.before, c.ops);
    assert SelfContained(o) by { hide SelfContained; }
    ViewsAgree(sim, c, given, e, o);
    hide CanSplit, IsCut, Runnable, JoinsOf, OldView, S.Chosen, JoinOf, SelfContained, Exec, AllJoins, Viewed, SolvesAt;
    var v := OldView(c, given, e);
    SameExec(k(OffsetOf(o)), o, p, Viewed(AllJoins(c), e));
    ExecAgrees(k(OffsetOf(o)), o, Viewed(AllJoins(c), e), Viewed(c.before, v));
    forall t | t in o.outputs
      ensures Read(v, t) == Read(Exec(k(OffsetOf(o)), o, Viewed(c.before, v)), t)
    {
      OldViewReads(c, given, e, t);
      ReadIsNoNewTile(sim, c, o, t);
      if t in JoinsOf(c.ops, c.targets) {
        var q := JoinedIsChosen(c, t);
        OneMaker(c, o, q, t);
      }
    }
  }

  lemma KeptPiece(c: Cut, o: Op) returns (p: Op)
    requires IsCut(c) && o in c.ops && !S.Chosen(c.targets, o)
    ensures p in c.news && p.body == o.body && p.inputs == o.inputs && p.outputs == o.outputs && p.subOps == o.subOps && p.origin == o.origin
  {
    assert PieceThere(c, o, 0) by { hide S.TilesOf, Piece, HasPieces; }
    p :| p in c.news && Piece(c, o, 0, p);
    PieceFacts(c, o, 0, p);
  }

  // ---------------------------------------------------------------- a split op and its tiles

  ghost predicate TileRead(k: Located, c: Cut, o: Op, e: Env, i: nat)
    requires i < |PiecesOf(o, c.targets)| && o.outputs != []
  {
    && PiecesOf(o, c.targets)[i].outputs != []
    && Ints(Read(e, TileName(o.outputs[0], i))) == Made(k, PiecesOf(o, c.targets)[i], Viewed(AllJoins(c), e))
  }

  /** In a solution of the new list a tile's tensor is what the tile makes. */
  lemma TileReads(k: Located, sim: Simulator, c: Cut, given: Env, e: Env, o: Op, i: nat)
    requires CanSplit(sim, c) && IsCut(c) && o in c.ops && S.Chosen(c.targets, o) && SolvesAt(k, AllJoins(c), c.news, given, e)
    requires i < |PiecesOf(o, c.targets)|
    ensures o.outputs != [] && TileRead(k, c, o, e, i)
  {
    ChosenParts(sim, c, o);
    assert PieceThere(c, o, i) by { hide S.TilesOf, Piece, HasPieces, PiecesOf; }
    var p :| p in c.news && Piece(c, o, i, p);
    PieceFacts(c, o, i, p);
    var q := TilePiece(c, o, i, p);
    hide CanSplit, IsCut, JoinsOf, S.Chosen, JoinOf, Exec, AllJoins, Viewed, TileName, Piece, PiecesOf, S.TilesOf;
    assert HoldsAt(k, AllJoins(c), p, e);
    SameExec(k(OffsetOf(p)), q, p, Viewed(AllJoins(c), e));
    assert TileName(o.outputs[0], i) in p.outputs;
  }

  /** `part` is what the join takes from tile `i` of `whole`. */
  ghost predicate PartOfJoin(j: Join, whole: seq<int>, part: seq<int>, i: nat) {
    && j.width >= 1 && |whole| == j.outer * (j.tiles * j.width) * j.inner
    && HoldsCells(part, whole, j.outer, j.width, j.tiles * j.width, j.inner, i * j.width)
  }

  /** A tile's geometry and offset are those the join has for it. */
  lemma ToPartOfJoin(k: Located, o: Op, first: Op, tile: Op, e: Env, n: nat, i: nat)
    requires n >= 1 && HoldsItsPart(k, o, first, e) && HoldsItsPart(k, o, tile, e)
    requires Geometry(first).1 * n == Geometry(o).1 && Geometry(tile).1 * n == Geometry(o).1 > 0 && OffsetOf(tile) == i * Geometry(tile).1
    ensures o.outputs != [] && tile.outputs != []
    ensures PartOfJoin(Join(n, Geometry(first).0, Geometry(first).1, Geometry(first).2), Made(k, o, e), Made(k, tile, e), i)
  {
    hide *;
    ItsPart(k, o, first, e);
    ItsPart(k, o, tile, e);
    SameWidth(Geometry(first).1, Geometry(tile).1, n);
    var j := Join(n, Geometry(first).0, Geometry(first).1, Geometry(first).2);
    IsPartOfJoin(j, Made(k, o, e), Made(k, tile, e), i, Geometry(o).1, OffsetOf(tile));
  }

  lemma ItsPart(k: Located, o: Op, tile: Op, e: Env)
    requires HoldsItsPart(k, o, tile, e)
    ensures o.outputs != [] && tile.outputs != [] && OffsetOf(tile) >= 0
    ensures Geometry(tile).0 == Geometry(o).0 && Geometry(tile).2 == Geometry(o).2
    ensures HoldsCells(Made(k, tile, e), Made(k, o, e), Geometry(o).0, Geometry(tile).1, Geometry(o).1, Geometry(o).2, OffsetOf(tile))
  {
    hide HoldsCells, Made, Geometry, OffsetOf;
  }

  lemma IsPartOfJoin(j: Join, whole: seq<int>, part: seq<int>, i: nat, full: nat, off: nat)
    requires j.width >= 1 && full == j.width * j.tiles && off == i * j.width && HoldsCells(part, whole, j.outer, j.width, full, j.inner, off)
    ensures PartOfJoin(j, whole, part, i)
  {
    assert full == j.tiles * j.width;
    CellsCount(part, whole, j.outer, j.width, full, j.inner, off);
    hide HoldsCells;
  }

  lemma PartsHold(k: Located, sim: Simulator, targets: map<int, int>, o: Op, e: Env, i: nat)
    requires S.Chosen(targets, o) && i < targets[o.id.value] && Interprets(k, sim) && Fits(sim, o) && !o.origin.Tile?
    requires S.TilesOf(o, o.id.value, targets[o.id.value]) == Ok(PiecesOf(o, targets))
    ensures o.outputs != [] && |PiecesOf(o, targets)| == targets[o.id.value] && PiecesOf(o, targets)[i].outputs != []
    ensures PartOfJoin(JoinOf(o, targets), Made(k, o, e), Made(k, PiecesOf(o, targets)[i], e), i)
  {
    var n, tiles := targets[o.id.value], PiecesOf(o, targets);
    hide *;
    ChosenCount(targets, o);
    TileHoldsItsPart(k, sim, o, o.id.value, n, tiles, 0, e);
    TileHoldsItsPart(k, sim, o, o.id.value, n, tiles, i, e);
    JoinOfTiles(o, targets);
    ToPartOfJoin(k, o, tiles[0], tiles[i], e, n, i);
  }

  lemma JoinOfTiles(o: Op, targets: map<int, int>)
    requires S.Chosen(targets, o) && PiecesOf(o, targets) != []
    ensures var g := Geometry(PiecesOf(o, targets)[0]); JoinOf(o, targets) == Join(targets[o.id.value], g.0, g.1, g.2)
  {
    hide PiecesOf, Geometry;
  }

  lemma SameWidth(w: nat, v: nat, n: nat)
    requires w * n == v * n > 0
    ensures w == v >= 1
  {
    if w < v {
      T.MulMono(w + 1, v, n);
    } else if v < w {
      T.MulMono(v + 1, w, n);
    }
  }

  lemma PartsJoin(j: Join, whole: seq<int>, parts: seq<seq<int>>)
    requires j.tiles >= 1 && |parts| == j.tiles && forall i :: 0 <= i < j.tiles ==> PartOfJoin(j, whole, parts[i], i)
    ensures j.width >= 1 && T.Laid(j.outer, j.tiles * j.width, j.inner, T.Joined(parts, j.width, j.inner)) == whole
  {
    hide HoldsCells, T.Laid, T.Joined;
    assert PartOfJoin(j, whole, parts[0], 0);
    CellsJoin(j.outer, j.tiles, j.width, j.inner, whole, parts);
  }

  /** The join of the tiles is what the op itself would make. */
  lemma JoinIsMade(k: Located, sim: Simulator, c: Cut, given: Env, e: Env, o: Op)
    requires Interprets(k, sim) && CanSplit(sim, c) && IsCut(c) && o in c.ops && S.Chosen(c.targets, o)
    requires SolvesAt(k, AllJoins(c), c.news, given, e)
    ensures o.outputs != [] && o.outputs[0] in JoinsOf(c.ops, c.targets)
    ensures JoinedValue(JoinsOf(c.ops, c.targets)[o.outputs[0]], o.outputs[0], e)
         == Read(Exec(k(OffsetOf(o)), o, Viewed(AllJoins(c), e)), o.outputs[0])
  {
    var n, tiles, seen := c.targets[o.id.value], PiecesOf(o, c.targets), Viewed(AllJoins(c), e);
    ChosenParts(sim, c, o);
    assert S.TilesOf(o, o.id.value, n) == Ok(tiles) by { hide S.TilesOf; }
    hide *;
    ChosenJoin(sim, c, o);
    ChosenCount(c.targets, o);
    var full := SF.TilesAre(o, o.id.value, n, tiles);
    var j, parts := JoinOf(o, c.targets), PartsOf(JoinOf(o, c.targets), o.outputs[0], e);
    forall i: nat | i < n
      ensures PartOfJoin(j, Made(k, o, seen), parts[i], i)
    {
      TileReads(k, sim, c, given, e, o, i);
      TileReadIs(k, c, o, e, i);
      PartsHold(k, sim, c.targets, o, seen, i);
    }
    PartsJoin(j, Made(k, o, seen), parts);
    WholeMakesNumbers(k, sim, o, seen);
    MakesNumbersIs(k, o, seen);
    JoinedValueIs(j, o.outputs[0], e);
  }

  lemma ChosenCount(targets: map<int, int>, o: Op)
    requires S.Chosen(targets, o)
    ensures targets[o.id.value] >= 2
  {
  }

  lemma CellsCount(part: seq<int>, whole: seq<int>, outer: nat, width: nat, full: nat, inner: nat, off: nat)
    requires HoldsCells(part, whole, outer, width, full, inner, off)
    ensures |whole| == outer * full * inner
  {
    hide T.At, T.Position;
  }

  lemma TileReadIs(k: Located, c: Cut, o: Op, e: Env, i: nat)
    requires i < |PiecesOf(o, c.targets)| && o.outputs != [] && TileRead(k, c, o, e, i)
    ensures PiecesOf(o, c.targets)[i].outputs != []
    ensures Ints(Read(e, TileName(o.outputs[0], i))) == Made(k, PiecesOf(o, c.targets)[i], Viewed(AllJoins(c), e))
  {
    hide PiecesOf, Made, Viewed, AllJoins, TileName, Ints;
  }

  lemma MakesNumbersIs(k: Located, o: Op, e: Env)
    requires o.outputs != [] && MakesNumbers(k, o, e)
    ensures Read(Exec(k(OffsetOf(o)), o, e), o.outputs[0]) == Nums(Made(k, o, e))
  {
    hide Exec, Made, Nums;
  }

  lemma JoinedValueIs(j: Join, t: Name, e: Env)
    requires j.width >= 1
    ensures JoinedValue(j, t, e) == Nums(T.Laid(j.outer, j.tiles * j.width, j.inner, T.Joined(PartsOf(j, t, e), j.width, j.inner)))
  {
    hide T.Laid, T.Joined, PartsOf, Nums;
  }

  /** An op that was split satisfies its equation in the old view. */
  lemma CutHolds(k: Located, sim: Simulator, c: Cut, given: Env, e: Env, o: Op)
    requires Interprets(k, sim) && CanSplit(sim, c) && IsCut(c) && o in c.ops && S.Chosen(c.targets, o)
    requires SolvesAt(k, AllJoins(c), c.news, given, e)
    ensures HoldsAt(k, c.before, o, OldView(c, given, e))
  {
    ChosenParts(sim, c, o);
    assert Runnable(c.before, c.ops);
    assert SelfContained(o) by { hide SelfContained; }
    hide CanSplit, IsCut, Runnable, JoinsOf, OldView, S.Chosen, SelfContained, Exec, AllJoins, Viewed, SolvesAt, Interprets, JoinedValue;
    var v := OldView(c, given, e);
    ViewsAgree(sim, c, given, e, o);
    ExecAgrees(k(OffsetOf(o)), o, Viewed(AllJoins(c), e), Viewed(c.before, v));
    JoinIsMade(k, sim, c, given, e, o);
    OldViewReads(c, given, e, o.outputs[0]);
    assert o.outputs == [o.outputs[0]];
  }

  /** Every solution of the new list is, in the old view, one of the old list. */
  lemma OldViewSolves(k: Located, sim: Simulator, c: Cut, given: Env, e: Env)
    requires Interprets(k, sim) && CanSplit(sim, c) && IsCut(c) && SolvesAt(k, AllJoins(c), c.news, given, e)
    ensures SolvesAt(k, c.before, c.ops, given, OldView(c, given, e))
  {
    hide Interprets, CanSplit, IsCut, AllJoins, OldView, S.Chosen, JoinsOf, HoldsAt;
    forall o | o in c.ops
      ensures HoldsAt(k, c.before, o, OldView(c, given, e))
    {
      if S.Chosen(c.targets, o) {
        CutHolds(k, sim, c, given, e, o);
      } else {
        SameHolds(k, sim, c, given, e, o);
      }
    }
    forall t | !MadeBy(c.ops, t)
      ensures Read(OldView(c, given, e), t) == Read(given, t)
    {
      OldViewReads(c, given, e, t);
      if t in JoinsOf(c.ops, c.targets) {
        JoinedIsMade(c, t);
      } else if !IsNewTile(c, t) {
        StillUnmade(sim, c, t);
      }
    }
  }

  lemma JoinedIsMade(c: Cut, t: Name)
    requires t in JoinsOf(c.ops, c.targets)
    ensures MadeBy(c.ops, t)
  {
    var o := JoinedIsChosen(c, t);
  }

  lemma StillUnmade(sim: Simulator, c: Cut, t: Name)
    requires CanSplit(sim, c) && IsCut(c) && !MadeBy(c.ops, t) && !IsNewTile(c, t)
    ensures !MadeBy(c.news, t)
  {
    if MadeBy(c.news, t) {
      var p :| p in c.news && t in p.outputs;
      var o, i, q, l := TwoPieces(c, p, p);
      PieceFacts(c, o, i, p);
      PieceIn(c, o, i, p);
      hide CanSplit, IsCut, Piece, S.Chosen, PiecesOf, JoinsOf, TileName;
      if S.Chosen(c.targets, o) {
        TileIsNew(sim, c, o, i, p);
      }
    }
  }

  // ---------------------------------------------------------------- the theorem

  /** Splitting a list that can be split: whatever order either list is run in, every tensor that is no
      new tile has the same value for its readers, the split ones as the join of their tiles. */
  lemma SplittingPreservesMeaning(k: Located, sim: Simulator, ops: seq<Op>, tensors: S.Tensors, hint: seq<S.Spec>, r: S.Tiled, before: Joins,
                                  old_: seq<Op>, new_: seq<Op>, env: Env, t: Name)
    requires Interprets(k, sim) && SF.Splits(ops, tensors, hint, r) && r.idRemap.Some?
    requires var c := Cut(ops, S.Targets(hint), before, r.idRemap.value, r.ops);
      CanSplit(sim, c) && Schedule(ops, old_) && Schedule(r.ops, new_) && !IsNewTile(c, t)
    ensures var c := Cut(ops, S.Targets(hint), before, r.idRemap.value, r.ops);
      && Runnable(AllJoins(c), r.ops)
      && Read(Viewed(AllJoins(c), RunTiled(k, AllJoins(c), new_, env)), t) == Read(Viewed(before, RunTiled(k, before, old_, env)), t)
  {
    assert DistinctIds(ops) by { hide Fits, SelfContained, Fresh; }
    assert Runnable(before, ops);
    hide *;
    var c := SplitIsCut(ops, tensors, hint, r, before);
    ResultIsRunnable(sim, c);
    ScheduleFlowsAt(AllJoins(c), r.ops, new_);
    ScheduleFlowsAt(before, ops, old_);
    var e, e0 := RunTiled(k, AllJoins(c), new_, env), RunTiled(k, before, old_, env);
    TiledRunSolves(k, AllJoins(c), new_, env);
    TiledRunSolves(k, before, old_, env);
    SameMembers(r.ops, new_);
    SameMembers(ops, old_);
    SolvesAtMoves(k, AllJoins(c), new_, r.ops, env, e);
    OldViewSolves(k, sim, c, env, e);
    SolvesAtMoves(k, before, ops, old_, env, OldView(c, env, e));
    forall x
      ensures Read(OldView(c, env, e), x) == Read(e0, x)
    {
      TiledSolutionIsUnique(k, before, old_, env, OldView(c, env, e), e0, x);
    }
    ReadersAgree(sim, c, env, e, e0, t);
  }

  lemma SameMembers(ops: seq<Op>, sched: seq<Op>)
    requires Schedule(ops, sched)
    ensures forall o :: o in sched <==> o in ops
  {
  }

  lemma ReadersAgree(sim: Simulator, c: Cut, given: Env, e: Env, e0: Env, t: Name)
    requires CanSplit(sim, c) && !IsNewTile(c, t) && forall x :: Read(OldView(c, given, e), x) == Read(e0, x)
    ensures Read(Viewed(AllJoins(c), e), t) == Read(Viewed(c.before, e0), t)
  {
    assert Runnable(c.before, c.ops);
    hide CanSplit, Runnable, JoinsOf, TileName, OldView, S.Chosen, JoinOf, JoinedValue, Viewed, IsNewTile;
    var v := OldView(c, given, e);
    ViewedReads(AllJoins(c), e, t);
    ViewedReads(c.before, e0, t);
    OldViewReads(c, given, e, t);
    if t in JoinsOf(c.ops, c.targets) {
      var q := JoinedIsChosen(c, t);
      OldMakes(c, q, t);
    } else if t in c.before {
      OldPartsStay(sim, c, given, e, t);
      assert PartsOf(c.before[t], t, v) == PartsOf(c.before[t], t, e0);
      SameParts(c.before[t], t, v, e0);
    }
  }

  lemma SameParts(j: Join, t: Name, e1: Env, e2: Env)
    requires PartsOf(j, t, e1) == PartsOf(j, t, e2)
    ensures JoinedValue(j, t, e1) == JoinedValue(j, t, e2)
  {
    hide PartsOf, T.Laid;
  }

  // ---------------------------------------------------------------- any number of splits

  /** A list, its tensors and what its readers join. */
  datatype Listing = Listing(ops: seq<Op>, tensors: S.Tensors, joins: Joins)

  ghost predicate SplitBy(sim: Simulator, a: Listing, hint: seq<S.Spec>, r: S.Tiled, b: Listing) {
    && SF.Splits(a.ops, a.tensors, hint, r) && r.idRemap.Some?
    && var c := Cut(a.ops, S.Targets(hint), a.joins, r.idRemap.value, r.ops);
    && CanSplit(sim, c) && b == Listing(r.ops, r.tensors, AllJoins(c))
  }

  ghost predicate OneSplit(sim: Simulator, a: Listing, b: Listing) {
    exists hint, r :: SplitBy(sim, a, hint, r, b)
  }

  ghost predicate Splittings(sim: Simulator, a: Listing, b: Listing, n: nat)
    decreases n
  {
    if n == 0 then a == b else exists mid :: Splittings(sim, a, mid, n - 1) && OneSplit(sim, mid, b)
  }

  ghost predicate IsTileName(joins: Joins, t: Name) {
    exists p, i: nat :: TileOf(joins, p, i) && t == TileName(p, i)
  }

  lemma TileNamesGrow(sim: Simulator, c: Cut, t: Name)
    requires CanSplit(sim, c) && (IsNewTile(c, t) || IsTileName(c.before, t))
    ensures IsTileName(AllJoins(c), t)
  {
    assert Runnable(c.before, c.ops);
    hide CanSplit, Runnable, JoinsOf, TileName, S.Chosen, JoinOf;
    if IsNewTile(c, t) {
      var p, i: nat :| TileOf(JoinsOf(c.ops, c.targets), p, i) && t == TileName(p, i);
      NamesTile(AllJoins(c), p, i);
    } else {
      var p, i: nat :| TileOf(c.before, p, i) && t == TileName(p, i);
      BeforeStays(c, p);
      NamesTile(AllJoins(c), p, i);
    }
  }

  lemma NoTileBefore(sim: Simulator, c: Cut, t: Name)
    requires CanSplit(sim, c) && !IsTileName(AllJoins(c), t)
    ensures !IsNewTile(c, t) && !IsTileName(c.before, t)
  {
    hide *;
    if IsNewTile(c, t) || IsTileName(c.before, t) {
      TileNamesGrow(sim, c, t);
    }
  }

  lemma NamesTile(joins: Joins, p: Name, i: nat)
    requires p in joins && i < joins[p].tiles
    ensures IsTileName(joins, TileName(p, i))
  {
    hide TileName;
    assert TileOf(joins, p, i);
  }

  lemma BeforeStays(c: Cut, p: Name)
    requires Runnable(c.before, c.ops) && p in c.before
    ensures p in AllJoins(c) && AllJoins(c)[p] == c.before[p]
  {
    hide Runnable, JoinsOf, S.Chosen, JoinOf;
    if p in JoinsOf(c.ops, c.targets) {
      var q := JoinedIsChosen(c, p);
      OldMakes(c, q, p);
    }
  }

  lemma SplitKeepsOrders(sim: Simulator, a: Listing, hint: seq<S.Spec>, r: S.Tiled, b: Listing, new_: seq<Op>) returns (old_: seq<Op>)
    requires SplitBy(sim, a, hint, r, b) && Schedule(b.ops, new_)
    ensures Runnable(a.joins, a.ops) && Runnable(b.joins, b.ops) && Schedule(a.ops, old_)
  {
    assert Runnable(a.joins, a.ops) && DistinctIds(a.ops) by { hide SelfContained, Fits, Fresh, Needs; }
    var c := Cut(a.ops, S.Targets(hint), a.joins, r.idRemap.value, r.ops);
    assert CanSplit(sim, c) && b.joins == AllJoins(c) && b.ops == r.ops;
    hide *;
    SplitOf(sim, a, hint, r, b);
    c := SplitIsCut(a.ops, a.tensors, hint, r, a.joins);
    ResultIsRunnable(sim, c);
    CutIsDistinct(c);
    ScheduleIsAcyclic(r.ops, new_);
    SF.SplittingKeepsCycles(a.ops, a.tensors, hint, r);
    SchedulableIffAcyclic(a.ops);
    old_ :| Schedule(a.ops, old_);
  }

  lemma SplitOf(sim: Simulator, a: Listing, hint: seq<S.Spec>, r: S.Tiled, b: Listing)
    requires SplitBy(sim, a, hint, r, b)
    ensures SF.Splits(a.ops, a.tensors, hint, r) && r.idRemap.Some?
  {
    hide SF.Splits, CanSplit;
  }

  lemma CutIsDistinct(c: Cut)
    requires IsCut(c)
    ensures DistinctIds(c.news)
  {
    hide DistinctIds, PieceThere, HasPieces, S.TilesOf;
  }

  /** However often a list is split, every tensor that is no tile keeps its value. */
  lemma {:induction false} SplitsPreserveMeaning(k: Located, sim: Simulator, a: Listing, b: Listing, n: nat, old_: seq<Op>, new_: seq<Op>, env: Env, t: Name)
    requires Interprets(k, sim) && Splittings(sim, a, b, n) && Runnable(a.joins, a.ops)
    requires Schedule(a.ops, old_) && Schedule(b.ops, new_) && !IsTileName(b.joins, t)
    ensures Runnable(b.joins, b.ops)
    ensures Read(Viewed(b.joins, RunTiled(k, b.joins, new_, env)), t) == Read(Viewed(a.joins, RunTiled(k, a.joins, old_, env)), t)
    decreases n
  {
    hide Interprets, Runnable, Schedule, IsTileName, RunTiled, Viewed, SplitBy;
    if n == 0 {
      forall x
        ensures Read(RunTiled(k, b.joins, new_, env), x) == Read(RunTiled(k, a.joins, old_, env), x)
      {
        TiledOrderDoesNotMatter(k, a.joins, a.ops, old_, new_, env, x);
      }
      SameRead(a.joins, RunTiled(k, b.joins, new_, env), RunTiled(k, a.joins, old_, env), t);
    } else {
      var mid :| Splittings(sim, a, mid, n - 1) && OneSplit(sim, mid, b);
      var hint, r :| SplitBy(sim, mid, hint, r, b);
      var sched := SplitKeepsOrders(sim, mid, hint, r, b, new_);
      SplitOnce(k, sim, mid, hint, r, b, sched, new_, env, t);
      SplitsPreserveMeaning(k, sim, a, mid, n - 1, old_, sched, env, t);
    }
  }

  lemma SplitOnce(k: Located, sim: Simulator, a: Listing, hint: seq<S.Spec>, r: S.Tiled, b: Listing, old_: seq<Op>, new_: seq<Op>, env: Env, t: Name)
    requires Interprets(k, sim) && SplitBy(sim, a, hint, r, b) && Schedule(a.ops, old_) && Schedule(b.ops, new_) && !IsTileName(b.joins, t)
    ensures !IsTileName(a.joins, t)
    ensures Read(Viewed(b.joins, RunTiled(k, b.joins, new_, env)), t) == Read(Viewed(a.joins, RunTiled(k, a.joins, old_, env)), t)
  {
    var c := Cut(a.ops, S.Targets(hint), a.joins, r.idRemap.value, r.ops);
    assert CanSplit(sim, c) && b.joins == AllJoins(c) && b.ops == r.ops && c.before == a.joins;
    hide *;
    SplitOf(sim, a, hint, r, b);
    NoTileBefore(sim, c, t);
    SplittingPreservesMeaning(k, sim, a.ops, a.tensors, hint, r, a.joins, old_, new_, env, t);
  }

  /** Starting from a list without tiles, the old values are those of an ordinary run. */
  lemma SplitsKeepPlainRun(k: Located, sim: Simulator, a: Listing, b: Listing, n: nat, old_: seq<Op>, new_: seq<Op>, env: Env, t: Name)
    requires Interprets(k, sim) && Splittings(sim, a, b, n) && Dataflow(a.ops) && a.joins == map[] && forall o :: o in a.ops ==> !o.origin.Tile?
    requires Schedule(a.ops, old_) && Schedule(b.ops, new_) && !IsTileName(b.joins, t)
    ensures Read(Viewed(b.joins, RunTiled(k, b.joins, new_, env)), t) == Read(Run(k(0), old_, env), t)
  {
    PlainIsRunnable(a.ops);
    SameMembers(a.ops, old_);
    ScheduleFlowsAt(map[], a.ops, old_);
    hide Interprets, Splittings, Dataflow, Schedule, IsTileName, RunTiled, Run, Viewed, Runnable;
    SplitsPreserveMeaning(k, sim, a, b, n, old_, new_, env, t);
    ViewedReads(map[], RunTiled(k, map[], old_, env), t);
    PlainRun(k, old_, env, t);
  }

  // ---------------------------------------------------------------- splitting a tile

  /** Splitting a tile again forgets where the tile began: the new tiles are recorded from channel 0,
      which is where their channels start exactly when the tile itself started there. */
  lemma ResplitForgetsOffset(sim: Simulator, o: Op, id: int, n: nat, tiles: seq<Op>)
    requires n >= 2 && S.TilesOf(o, id, n) == Ok(tiles) && Fits(sim, o)
    ensures |tiles| == n
    ensures (forall t :: 0 <= t < n ==> OffsetOf(tiles[t]) == OffsetOf(o) + t * Geometry(tiles[t]).1) <==> OffsetOf(o) == 0
  {
    forall t: nat | t < n
      ensures |tiles| == n && OffsetOf(tiles[t]) == t * Geometry(tiles[t]).1
    {
      TileRecord(sim, o, id, n, tiles, t);
    }
    hide S.TilesOf, Fits, Geometry;
    assert OffsetOf(tiles[0]) == 0 * Geometry(tiles[0]).1 == 0;
  }

  // ---------------------------------------------------------------- a list that can be split

  const LAYER := Op("fc", Body("linear_s8", map["M" := 1, "K" := 1, "N" := 2], map[], map[]), ["x"], ["y"], [], [], Some(0), [], None, Original, map[])

  lemma LayerFits(sim: Simulator)
    requires sim.weights(map[]) == ([1, 2], [0, 0])
    ensures Fits(sim, LAYER) && S.TilesOf(LAYER, 0, 2).Ok?
  {
  }

  lemma LayerTargets()
    ensures S.Targets([(0, 2)]) == map[0 := 2] && S.HintError([(0, 2)], ById([LAYER])) == None
  {
    var hint: seq<S.Spec> := [(0, 2)];
    assert hint[..0] == [];
    assert ById([LAYER])[0] == LAYER by { assert [LAYER][..0] == []; }
  }

  lemma LayerIsRunnable()
    ensures Runnable(map[], [LAYER])
  {
    assert SelfContained(LAYER);
  }

  lemma LayerSplits()
    requires S.TilesOf(LAYER, 0, 2).Ok? && S.Targets([(0, 2)]) == map[0 := 2] && S.HintError([(0, 2)], ById([LAYER])) == None
    ensures S.Outcome([LAYER], map[], [(0, 2)]).Ok?
  {
    hide S.TilesOf, S.Targets, S.HintError, S.Register, S.RewireAll;
    var hint: seq<S.Spec> := [(0, 2)];
    assert S.Steps([LAYER], map[], map[0 := 2], 0) == Ok(S.Pass([], map[], map[], 0));
    assert S.Steps([LAYER], map[], map[0 := 2], 1).Ok?;
  }

  lemma LongerName(p: Name, i: nat, t: Name)
    requires |t| <= 5
    ensures TileName(p, i) != t
  {
    hide Decimal;
    assert |p + ".tile_" + Decimal(i)| >= 6;
  }

  lemma LayerIsFresh(c: Cut)
    requires c.ops == [LAYER] && c.before == map[]
    ensures Fresh(c)
  {
    hide TileName, JoinsOf;
    forall p, i: nat | TileOf(JoinsOf(c.ops, c.targets), p, i)
      ensures UnusedName(c, TileName(p, i))
    {
      LongerName(p, i, "x");
      LongerName(p, i, "y");
    }
  }

  /** A layer with two features can be split in two. */
  lemma OneLayerCanBeSplit(sim: Simulator) returns (r: S.Tiled)
    requires sim.weights(map[]) == ([1, 2], [0, 0])
    ensures SF.Splits([LAYER], map[], [(0, 2)], r) && r.idRemap.Some?
    ensures CanSplit(sim, Cut([LAYER], S.Targets([(0, 2)]), map[], r.idRemap.value, r.ops))
  {
    LayerFits(sim);
    LayerTargets();
    LayerIsRunnable();
    LayerSplits();
    hide Fits, S.TilesOf, S.Targets, S.HintError, Runnable, S.Steps, Fresh, S.RewireAll;
    r := S.Outcome([LAYER], map[], [(0, 2)]).value;
    LayerIsFresh(Cut([LAYER], S.Targets([(0, 2)]), map[], r.idRemap.value, r.ops));
  }
}
