/** The rewrite loop of pipeline/attention_fuse.py: matched chains are replaced by one attention op
    until nothing matches. Copies around the chain are not folded here: operands and result keep
    their natural layout. */
module AttentionFuse {
  import opened Ir
  import opened Schedules
  import opened Attention
  import opened JoinedNames

  // ---------------------------------------------------------------- what a match absorbs

  ghost function Out(g: Net, i: nat): Name
    requires i < |g.ops| && g.ops[i].outputs != []
  {
    g.ops[i].outputs[0]
  }

  /** The result of op `a` goes to op `r` and nowhere else. */
  ghost predicate OnlyTo(g: Net, a: nat, r: nat) {
    && a < |g.ops| && r < |g.ops| && g.ops[a].outputs != []
    && Readers(g.ops, Out(g, a), |g.ops|) == [r] && Out(g, a) !in g.outs
  }

  ghost predicate Passes(g: Net, chain: seq<nat>, last: nat) {
    forall k: nat :: k < |chain| ==> HandsOn(g, chain, last, k)
  }

  ghost predicate HandsOn(g: Net, chain: seq<nat>, last: nat, k: nat)
    requires k < |chain|
  {
    OnlyTo(g, chain[k], if k + 1 < |chain| then chain[k + 1] else last)
  }

  lemma {:induction false} FollowPasses(g: Net, at: nat)
    requires Listed(g.ops) && at < |g.ops| && Follow(g, at).Some?
    ensures var f := Follow(g, at).value; Passes(g, [at] + f.views, f.op) && forall v :: v in f.views ==> at < v < f.op
    decreases |g.ops| - at
  {
    var f := Follow(g, at).value;
    assert g.ops[at] in g.ops;
    var t := g.ops[at].outputs[0];
    var r := Readers(g.ops, t, |g.ops|)[0];
    assert t in g.ops[r].inputs && t in g.ops[at].outputs;
    assert Readers(g.ops, t, |g.ops|) == [r];
    if IsView(g.ops[r]) {
      FollowPasses(g, r);
      var rest := Follow(g, r).value;
      assert f.views == [r] + rest.views;
      assert [at] + f.views == [at] + ([r] + rest.views);
      var chain := [r] + rest.views;
      assert OnlyTo(g, at, r) && HandsOn(g, [at], r, 0);
      PassesJoin(g, [at], chain, f.op);
    } else {
      assert f.views == [] && [at] + f.views == [at] && HandsOn(g, [at], f.op, 0);
    }
  }

  /** Everything absorbed so far lies from the head on, and hands its result to the next absorbed
      op; only the last one's reader is still open. */
  ghost predicate Linked(g: Net, head: nat, absorbed: seq<nat>, at: nat) {
    && absorbed != [] && absorbed[0] == head && absorbed[|absorbed| - 1] == at
    && (forall k :: 0 <= k < |absorbed| ==> head <= absorbed[k] <= at)
    && Passes(g, absorbed[..|absorbed| - 1], at)
  }

  lemma PassesJoin(g: Net, a: seq<nat>, b: seq<nat>, last: nat)
    requires b != [] && Passes(g, a, b[0]) && Passes(g, b, last)
    ensures Passes(g, a + b, last)
  {
    var c := a + b;
    forall k: nat | k < |c|
      ensures HandsOn(g, c, last, k)
    {
      if k < |a| {
        assert HandsOn(g, a, b[0], k);
      } else {
        assert HandsOn(g, b, last, k - |a|);
      }
    }
  }

  lemma LinkOn(g: Net, head: nat, absorbed: seq<nat>, at: nat)
    requires Listed(g.ops) && at < |g.ops| && Linked(g, head, absorbed, at) && Follow(g, at).Some?
    ensures var f := Follow(g, at).value;
      && Passes(g, absorbed + f.views, f.op) && Linked(g, head, absorbed + f.views + [f.op], f.op)
      && forall k :: 0 <= k < |absorbed + f.views| ==> head <= (absorbed + f.views)[k] < f.op
  {
    var f := Follow(g, at).value;
    FollowPasses(g, at);
    var init := absorbed[..|absorbed| - 1];
    PassesJoin(g, init, [at] + f.views, f.op);
    assert absorbed == init + [at];
    assert absorbed + f.views == init + ([at] + f.views);
    var all := absorbed + f.views + [f.op];
    assert all[..|all| - 1] == absorbed + f.views;
    forall k | 0 <= k < |absorbed + f.views|
      ensures head <= (absorbed + f.views)[k] < f.op
    {
      if k >= |absorbed| {
        assert f.views[k - |absorbed|] in f.views;
      }
    }
  }

  lemma {:induction false} WalkLinks(g: Net, p: Problem, head: nat, w: Walk)
    requires Listed(g.ops) && w.at < |g.ops| && Linked(g, head, w.absorbed, w.at) && WalkFrom(g, p, w).Some?
    ensures var (v, pv) := WalkFrom(g, p, w).value;
      Passes(g, v.absorbed, pv) && v.absorbed != [] && v.absorbed[0] == head && forall k :: 0 <= k < |v.absorbed| ==> head <= v.absorbed[k] < pv
    decreases |g.ops| - w.at, |w.pending|
  {
    hide Follow, TakeStage, Passes, Listed, Linked;
    if w.pending == [] {
      var f := Follow(g, w.at).value;
      LinkOn(g, head, w.absorbed, w.at);
      LinkedStart(g, head, w.absorbed, w.at);
      if NextOp(g, w).On? {
        WalkLinks(g, p, head, NextOp(g, w).w);
      }
    } else {
      TakingShrinks(g, p, w);
      WalkLinks(g, p, head, TakeStage(g, p, w).value);
    }
  }

  lemma LinkedStart(g: Net, head: nat, absorbed: seq<nat>, at: nat)
    requires Linked(g, head, absorbed, at)
    ensures absorbed != [] && absorbed[0] == head
  {
  }

  /** The matched chain is private: every absorbed op hands its result to the next one only, the
      last one to the second bmm, and none of these results leaves the graph. */
  lemma MatchIsPrivate(g: Net, head: nat, lookup: Lookup)
    requires Listed(g.ops) && head < |g.ops| && MatchAt(g, head, lookup).Some?
    ensures var r := MatchAt(g, head, lookup).value;
      && r.head == head && head < r.pv < |g.ops| && IsBmm(StagesOf(g.ops[head])[0]) && IsPlainBmm(g.ops[r.pv])
      && r.absorbed != [] && r.absorbed[0] == head && Passes(g, r.absorbed, r.pv)
      && forall k :: 0 <= k < |r.absorbed| ==> head <= r.absorbed[k] < r.pv
  {
    hide Follow, WalkFrom, Passes, Listed;
    var r := MatchAt(g, head, lookup).value;
    LinkedAlone(g, head);
    WalkLinks(g, Problem(r.d, lookup), head, StartAt(g, head));
  }

  lemma LinkedAlone(g: Net, head: nat)
    ensures Linked(g, head, [head], head)
  {
  }

  // ---------------------------------------------------------------- the rewrite

  /** The absorbed ops behind the head, views left out. */
  function Middle(g: Net, at: seq<nat>, k: nat): seq<string>
    requires k < |at| && forall j :: 0 <= j < |at| ==> at[j] < |g.ops|
  {
    if k == 0 then []
    else Middle(g, at, k - 1) + if g.ops[at[k]].body.kind == "view" then [] else [g.ops[at[k]].name]
  }

  /** What the match fixes of the replacement's shape. */
  function MatchNumbers(m: Match): map<string, int> {
    map["M" := m.d.m, "N" := m.d.n, "D" := m.inner, "DV" := m.dv,
        "causal" := if m.causal then 1 else 0, "act" := if m.act.Softmax? then 0 else 1]
  }

  ghost predicate Inside(g: Net, m: Match) {
    m.head < |g.ops| && m.pv < |g.ops| && m.absorbed != [] && forall j :: 0 <= j < |m.absorbed| ==> m.absorbed[j] < |g.ops|
  }

  function JoinedNamesOf(g: Net, m: Match): (r: seq<string>)
    requires Inside(g, m)
    ensures r != []
  {
    [g.ops[m.head].name] + Middle(g, m.absorbed, |m.absorbed| - 1) + [g.ops[m.pv].name]
  }

  /** The ops of the match have the operands that the replacement takes over. */
  ghost predicate Usable(g: Net, m: Match) {
    && Inside(g, m) && g.ops[m.pv].outputs != []
    && |StagesOf(g.ops[m.head])[0].inputs| >= 2 && |g.ops[m.pv].inputs| >= 2
  }

  /** The replacement; how the batch is split and where operands lie is left to the caller. */
  function AttentionOp(g: Net, m: Match, numbers: map<string, int>): Op
    requires Usable(g, m)
  {
    var head, pv := g.ops[m.head], g.ops[m.pv];
    Op(Joined(JoinedNamesOf(g, m)), Body(KIND, numbers + MatchNumbers(m), map["scale" := m.scale], map[]),
       StagesOf(head)[0].inputs[..2] + [pv.inputs[1]], [pv.outputs[0]], [], [],
       head.id, [], head.target, Original, map[])
  }

  function DeadNames(g: Net, m: Match): (r: set<string>)
    requires m.pv < |g.ops| && forall k :: 0 <= k < |m.absorbed| ==> m.absorbed[k] < |g.ops|
    ensures g.ops[m.pv].name in r && forall k :: 0 <= k < |m.absorbed| ==> g.ops[m.absorbed[k]].name in r
  {
    (set k | 0 <= k < |m.absorbed| :: g.ops[m.absorbed[k]].name) + {g.ops[m.pv].name}
  }

  /** The ops that stay. */
  function KeptOps(ops: seq<Op>, dead: set<string>, k: nat): seq<Op>
    requires k <= |ops|
  {
    if k == 0 then [] else KeptOps(ops, dead, k - 1) + if ops[k - 1].name in dead then [] else [ops[k - 1]]
  }

  /** Where they stood. */
  ghost function Kept(ops: seq<Op>, dead: set<string>, k: nat): (r: seq<nat>)
    requires k <= |ops|
    ensures forall j :: 0 <= j < |r| ==> r[j] < k && ops[r[j]].name !in dead
    ensures forall i, j :: 0 <= i < j < |r| ==> r[i] < r[j]
    ensures |r| <= k
  {
    if k == 0 then [] else Kept(ops, dead, k - 1) + if ops[k - 1].name in dead then [] else [k - 1]
  }

  ghost function OpsAt(ops: seq<Op>, at: seq<nat>): (r: seq<Op>)
    requires forall j :: 0 <= j < |at| ==> at[j] < |ops|
    ensures |r| == |at| && forall j :: 0 <= j < |r| ==> r[j] == ops[at[j]]
  {
    seq(|at|, j requires 0 <= j < |at| => ops[at[j]])
  }

  lemma {:induction false} KeptOpsAre(ops: seq<Op>, dead: set<string>, k: nat)
    requires k <= |ops|
    ensures KeptOps(ops, dead, k) == OpsAt(ops, Kept(ops, dead, k))
  {
    if k > 0 {
      KeptOpsAre(ops, dead, k - 1);
      hide OpsAt;
      if ops[k - 1].name !in dead {
        OneMoreAt(ops, Kept(ops, dead, k - 1), k - 1);
      }
    }
  }

  lemma OneMoreAt(ops: seq<Op>, at: seq<nat>, i: nat)
    requires i < |ops| && forall j :: 0 <= j < |at| ==> at[j] < |ops|
    ensures OpsAt(ops, at + [i]) == OpsAt(ops, at) + [ops[i]]
  {
  }

  /** The position of the first op with a dead name. */
  function FirstDead(ops: seq<Op>, dead: set<string>, k: nat): (r: nat)
    requires k <= |ops|
    ensures r <= k && forall i :: 0 <= i < r ==> ops[i].name !in dead
    ensures r < k ==> ops[r].name in dead
  {
    if k == 0 then 0
    else
      var r := FirstDead(ops, dead, k - 1);
      if r < k - 1 then r else if ops[k - 1].name in dead then k - 1 else k
  }

  predicate MakesOneOf(o: Op, ts: seq<Name>) {
    exists t :: t in o.outputs && t in ts
  }

  /** One past the last producer of an input, zero if there is none. */
  function AfterProducers(kept: seq<Op>, ts: seq<Name>, k: nat): (r: nat)
    requires k <= |kept|
    ensures r <= k && forall i :: r <= i < k ==> !MakesOneOf(kept[i], ts)
    ensures r > 0 ==> MakesOneOf(kept[r - 1], ts)
  {
    if k == 0 then 0 else if MakesOneOf(kept[k - 1], ts) then k else AfterProducers(kept, ts, k - 1)
  }

  function Max(a: nat, b: nat): nat { if a < b then b else a }
  function Min(a: nat, b: nat): nat { if a < b then a else b }

  function InsertAt(ops: seq<Op>, dead: set<string>, kept: seq<Op>, fresh_: Op): nat {
    Min(Max(FirstDead(ops, dead, |ops|), AfterProducers(kept, fresh_.inputs, |kept|)), |kept|)
  }

  function Spliced(ops: seq<Op>, dead: set<string>, fresh_: Op): seq<Op> {
    var kept := KeptOps(ops, dead, |ops|);
    var p := InsertAt(ops, dead, kept, fresh_);
    kept[..p] + [fresh_] + kept[p..]
  }

  // ---------------------------------------------------------------- the order is kept

  /** The replacement stands for the ops `head` to `pv`. */
  ghost predicate StandsIn(ops: seq<Op>, dead: set<string>, fresh_: Op, head: nat, pv: nat) {
    && head < pv < |ops| && ops[head].name in dead && ops[pv].name in dead
    && (forall t :: t in fresh_.inputs ==> t in ops[head].inputs || t in ops[pv].inputs)
    && (forall t :: t in fresh_.outputs ==> t in ops[pv].outputs)
  }

  /** Whatever stands before the insertion point stood before the second bmm. */
  lemma BeforeInsertion(ops: seq<Op>, dead: set<string>, fresh_: Op, head: nat, pv: nat, q: nat)
    requires Flows(ops) && StandsIn(ops, dead, fresh_, head, pv)
    requires q < InsertAt(ops, dead, KeptOps(ops, dead, |ops|), fresh_)
    ensures q < |Kept(ops, dead, |ops|)| && Kept(ops, dead, |ops|)[q] < pv
  {
    hide *;
    var at, kept := Kept(ops, dead, |ops|), KeptOps(ops, dead, |ops|);
    KeptOpsAre(ops, dead, |ops|);
    assert |at| == |kept|;
    var pos, prods := FirstDead(ops, dead, |ops|), AfterProducers(kept, fresh_.inputs, |kept|);
    InsertAtMeans(ops, dead, kept, fresh_);
    HeadIsDead(ops, dead, fresh_, head, pv);
    if q < pos {
      AtPosition(ops, dead, q);
    } else {
      var r := prods - 1;
      assert kept[r] == ops[at[r]] && q <= r;
      MakerBefore(ops, dead, fresh_, head, pv, at[r]);
    }
  }

  lemma InsertAtMeans(ops: seq<Op>, dead: set<string>, kept: seq<Op>, fresh_: Op)
    ensures InsertAt(ops, dead, kept, fresh_) <= |kept|
    ensures InsertAt(ops, dead, kept, fresh_) <= FirstDead(ops, dead, |ops|)
         || InsertAt(ops, dead, kept, fresh_) <= AfterProducers(kept, fresh_.inputs, |kept|)
  {
    hide FirstDead, AfterProducers;
  }

  lemma HeadIsDead(ops: seq<Op>, dead: set<string>, fresh_: Op, head: nat, pv: nat)
    requires StandsIn(ops, dead, fresh_, head, pv)
    ensures FirstDead(ops, dead, |ops|) <= head < pv
  {
    hide FirstDead;
  }

  lemma MakerBefore(ops: seq<Op>, dead: set<string>, fresh_: Op, head: nat, pv: nat, r: nat)
    requires Flows(ops) && StandsIn(ops, dead, fresh_, head, pv) && r < |ops| && MakesOneOf(ops[r], fresh_.inputs)
    ensures r < pv
  {
    var t :| t in ops[r].outputs && t in fresh_.inputs;
  }

  /** Before the first dead op nothing moves. */
  lemma {:induction false} AtPosition(ops: seq<Op>, dead: set<string>, q: nat)
    requires q < FirstDead(ops, dead, |ops|)
    ensures q < |Kept(ops, dead, |ops|)| && Kept(ops, dead, |ops|)[q] == q
  {
    AtPositionTo(ops, dead, |ops|, q);
  }

  lemma {:induction false} AtPositionTo(ops: seq<Op>, dead: set<string>, k: nat, q: nat)
    requires q < k <= |ops| && forall i :: 0 <= i <= q ==> ops[i].name !in dead
    ensures q < |Kept(ops, dead, k)| && Kept(ops, dead, k)[q] == q
  {
    if q < k - 1 {
      AtPositionTo(ops, dead, k - 1, q);
    } else if q > 0 {
      AtPositionTo(ops, dead, k - 1, q - 1);
      KeptFull(ops, dead, k - 1);
    }
  }

  lemma {:induction false} KeptFull(ops: seq<Op>, dead: set<string>, k: nat)
    requires k <= |ops| && forall i :: 0 <= i < k ==> ops[i].name !in dead
    ensures |Kept(ops, dead, k)| == k
  {
    if k > 0 {
      KeptFull(ops, dead, k - 1);
    }
  }

  lemma InsertFlows(ops: seq<Op>, at: seq<nat>, kept: seq<Op>, p: nat, fresh_: Op, pv: nat)
    requires Flows(ops) && |at| == |kept| && p <= |kept| && pv < |ops|
    requires forall j :: 0 <= j < |at| ==> at[j] < |ops| && kept[j] == ops[at[j]]
    requires forall i, j :: 0 <= i < j < |at| ==> at[i] < at[j]
    requires forall q :: 0 <= q < p ==> at[q] < pv
    requires forall q :: p <= q < |kept| ==> !MakesOneOf(kept[q], fresh_.inputs)
    requires forall t :: !(t in fresh_.inputs && t in fresh_.outputs)
    requires forall r, t :: 0 <= r < |ops| && t in ops[r].inputs && t in fresh_.outputs ==> pv < r
    ensures Flows(kept[..p] + [fresh_] + kept[p..])
  {
    hide MakesOneOf;
    var all := kept[..p] + [fresh_] + kept[p..];
    forall i, j, t | 0 <= i < |all| && 0 <= j < |all| && t in all[i].inputs && t in all[j].outputs
      ensures j < i
    {
      var a, b := if i < p then i else i - 1, if j < p then j else j - 1;
      if i == p && j != p {
        assert all[j] == kept[b];
        MakesIt(kept[b], fresh_.inputs, t);
      } else if i != p && j == p {
        assert all[i] == kept[a] == ops[at[a]];
      } else if i != p && j != p {
        BothKept(ops, at, kept, a, b, t);
      }
    }
  }

  lemma BothKept(ops: seq<Op>, at: seq<nat>, kept: seq<Op>, a: nat, b: nat, t: Name)
    requires Flows(ops) && |at| == |kept| && a < |kept| && b < |kept|
    requires forall j :: 0 <= j < |at| ==> at[j] < |ops| && kept[j] == ops[at[j]]
    requires forall i, j :: 0 <= i < j < |at| ==> at[i] < at[j]
    requires t in kept[a].inputs && t in kept[b].outputs
    ensures b < a
  {
    assert t in ops[at[a]].inputs && t in ops[at[b]].outputs;
    assert at[b] < at[a];
  }

  lemma InsertionRange(ops: seq<Op>, dead: set<string>, kept: seq<Op>, fresh_: Op)
    ensures InsertAt(ops, dead, kept, fresh_) <= |kept|
    ensures forall q :: InsertAt(ops, dead, kept, fresh_) <= q < |kept| ==> !MakesOneOf(kept[q], fresh_.inputs)
  {
    hide MakesOneOf;
    var prods := AfterProducers(kept, fresh_.inputs, |kept|);
    assert forall q :: prods <= q < |kept| ==> !MakesOneOf(kept[q], fresh_.inputs);
    assert prods <= InsertAt(ops, dead, kept, fresh_);
  }

  /** A list in data-flow order is in data-flow order after the splice. */
  lemma SpliceFlows(ops: seq<Op>, dead: set<string>, fresh_: Op, head: nat, pv: nat)
    requires Flows(ops) && StandsIn(ops, dead, fresh_, head, pv)
    ensures Flows(Spliced(ops, dead, fresh_))
  {
    hide Kept, KeptOps, InsertAt, MakesOneOf, Flows, StandsIn, OpsAt;
    var at := Kept(ops, dead, |ops|);
    var kept := KeptOps(ops, dead, |ops|);
    KeptOpsAre(ops, dead, |ops|);
    var p := InsertAt(ops, dead, kept, fresh_);
    InsertionRange(ops, dead, kept, fresh_);
    forall q | 0 <= q < p
      ensures at[q] < pv
    {
      BeforeInsertion(ops, dead, fresh_, head, pv, q);
    }
    forall t
      ensures !(t in fresh_.inputs && t in fresh_.outputs)
    {
      NewNotItsReader(ops, dead, fresh_, head, pv, t);
    }
    forall r, t | 0 <= r < |ops| && t in ops[r].inputs && t in fresh_.outputs
      ensures pv < r
    {
      ReadsAfter(ops, dead, fresh_, head, pv, r, t);
    }
    PvInside(ops, dead, fresh_, head, pv);
    InsertFlows(ops, at, kept, p, fresh_, pv);
  }

  lemma PvInside(ops: seq<Op>, dead: set<string>, fresh_: Op, head: nat, pv: nat)
    requires StandsIn(ops, dead, fresh_, head, pv)
    ensures pv < |ops|
  {
  }

  lemma MakesIt(o: Op, ts: seq<Name>, t: Name)
    requires t in o.outputs && t in ts
    ensures MakesOneOf(o, ts)
  {
  }

  lemma NewNotItsReader(ops: seq<Op>, dead: set<string>, fresh_: Op, head: nat, pv: nat, t: Name)
    requires Flows(ops) && StandsIn(ops, dead, fresh_, head, pv)
    ensures !(t in fresh_.inputs && t in fresh_.outputs)
  {
  }

  lemma ReadsAfter(ops: seq<Op>, dead: set<string>, fresh_: Op, head: nat, pv: nat, r: nat, t: Name)
    requires Flows(ops) && StandsIn(ops, dead, fresh_, head, pv) && r < |ops| && t in ops[r].inputs && t in fresh_.outputs
    ensures pv < r
  {
  }

  // ---------------------------------------------------------------- nothing else reads what goes away

  lemma OnlyReader(g: Net, a: nat, r: nat, i: nat)
    requires OnlyTo(g, a, r) && i < |g.ops| && Out(g, a) in g.ops[i].inputs
    ensures i == r
  {
    AllReaders(g.ops, Out(g, a), |g.ops|, i);
  }

  lemma DeadIsChain(g: Net, m: Match, i: nat) returns (k: nat)
    requires UniqueNames(g.ops) && m.pv < |g.ops| && i < |g.ops| && forall k :: 0 <= k < |m.absorbed| ==> m.absorbed[k] < |g.ops|
    requires g.ops[i].name in DeadNames(g, m)
    ensures k <= |m.absorbed| && i == if k < |m.absorbed| then m.absorbed[k] else m.pv
  {
    if j: nat :| j < |m.absorbed| && g.ops[m.absorbed[j]].name == g.ops[i].name {
      k := j;
    } else {
      k := |m.absorbed|;
    }
  }

  /** `t` is made by an op that goes away, and not by its replacement. */
  ghost predicate Lost(g: Net, m: Match, t: Name)
    requires Inside(g, m) && g.ops[m.pv].outputs != []
  {
    t != Out(g, m.pv) && exists d: nat :: d < |g.ops| && g.ops[d].name in DeadNames(g, m) && t in g.ops[d].outputs
  }

  /** `t` is a further output of an op that goes away. */
  ghost predicate Extra(g: Net, m: Match, t: Name)
    requires Listed(g.ops) && Inside(g, m)
  {
    exists d: nat :: d < |g.ops| && g.ops[d].name in DeadNames(g, m) && SideOutput(g, d, t)
  }

  ghost predicate SideOutput(g: Net, d: nat, t: Name)
    requires Listed(g.ops) && d < |g.ops|
  {
    assert g.ops[d] in g.ops;
    t in g.ops[d].outputs[1..]
  }

  /** Nobody misses `t`: no op that stays reads it and it is no output of the graph. */
  ghost predicate Unmissed(g: Net, m: Match, t: Name)
    requires Inside(g, m)
  {
    t !in g.outs && forall i :: 0 <= i < |g.ops| && g.ops[i].name !in DeadNames(g, m) ==> t !in g.ops[i].inputs
  }

  lemma MatchInside(g: Net, head: nat, lookup: Lookup)
    requires Listed(g.ops) && head < |g.ops| && MatchAt(g, head, lookup).Some?
    ensures Inside(g, MatchAt(g, head, lookup).value) && g.ops[MatchAt(g, head, lookup).value.pv].outputs != []
  {
    MatchIsPrivate(g, head, lookup);
    assert g.ops[MatchAt(g, head, lookup).value.pv] in g.ops;
    hide MatchAt;
  }

  /** The rewrite leaves nobody without an input exactly when nobody uses a further output of the
      ops it removes: their first outputs are private to the chain, and the others go with them. */
  lemma NothingMissedIff(g: Net, head: nat, lookup: Lookup)
    requires Listed(g.ops) && UniqueNames(g.ops) && head < |g.ops| && MatchAt(g, head, lookup).Some?
    ensures var m := MatchAt(g, head, lookup).value;
      && Inside(g, m) && g.ops[m.pv].outputs != []
      && ((forall t :: Lost(g, m, t) ==> Unmissed(g, m, t))
          <==> forall t :: Extra(g, m, t) && t != Out(g, m.pv) ==> Unmissed(g, m, t))
  {
    var m := MatchAt(g, head, lookup).value;
    MatchInside(g, head, lookup);
    MatchIsPrivate(g, head, lookup);
    hide MatchAt, Passes, Unmissed;
    forall t | Lost(g, m, t) && !Extra(g, m, t)
      ensures Unmissed(g, m, t)
    {
      FirstIsUnmissed(g, m, t);
    }
    forall t | Extra(g, m, t) && t != Out(g, m.pv)
      ensures Lost(g, m, t)
    {
    }
  }

  lemma FirstIsUnmissed(g: Net, m: Match, t: Name)
    requires Listed(g.ops) && UniqueNames(g.ops) && Inside(g, m) && g.ops[m.pv].outputs != []
    requires Passes(g, m.absorbed, m.pv) && Lost(g, m, t) && !Extra(g, m, t)
    ensures Unmissed(g, m, t)
  {
    var d: nat :| d < |g.ops| && g.ops[d].name in DeadNames(g, m) && t in g.ops[d].outputs;
    assert g.ops[d] in g.ops && g.ops[d].outputs == [g.ops[d].outputs[0]] + g.ops[d].outputs[1..];
    assert !SideOutput(g, d, t);
    var k := DeadIsChain(g, m, d);
    assert k < |m.absorbed|;
    HandsOnAt(g, m.absorbed, m.pv, k);
    var r := if k + 1 < |m.absorbed| then m.absorbed[k + 1] else m.pv;
    assert g.ops[r].name in DeadNames(g, m);
    hide DeadNames, Passes, Listed;
    forall i | 0 <= i < |g.ops| && t in g.ops[i].inputs
      ensures g.ops[i].name in DeadNames(g, m)
    {
      OnlyReader(g, d, r, i);
    }
  }

  lemma HandsOnAt(g: Net, chain: seq<nat>, last: nat, k: nat)
    requires Passes(g, chain, last) && k < |chain|
    ensures OnlyTo(g, chain[k], if k + 1 < |chain| then chain[k + 1] else last)
  {
    assert HandsOn(g, chain, last, k);
  }

  // ---------------------------------------------------------------- the loop

  predicate HeadsBmm(o: Op) { IsBmm(StagesOf(o)[0]) }

  /** Score bmms have two operands and read what their op reads. */
  ghost predicate Ready(g: Net) {
    && Listed(g.ops)
    && forall o :: o in g.ops && HeadsBmm(o) ==>
      |StagesOf(o)[0].inputs| >= 2 && forall t :: t in StagesOf(o)[0].inputs ==> t in o.inputs
  }

  function Heads(ops: seq<Op>): nat {
    if ops == [] then 0 else Heads(ops[..|ops| - 1]) + if HeadsBmm(ops[|ops| - 1]) then 1 else 0
  }

  lemma {:induction false} HeadsAppend(a: seq<Op>, b: seq<Op>)
    ensures Heads(a + b) == Heads(a) + Heads(b)
  {
    if b == [] {
      assert a + b == a;
    } else {
      assert (a + b)[..|a + b| - 1] == a + b[..|b| - 1];
      HeadsAppend(a, b[..|b| - 1]);
    }
  }

  lemma HeadsOne(ops: seq<Op>, o: Op)
    ensures Heads(ops + [o]) == Heads(ops) + if HeadsBmm(o) then 1 else 0
  {
    hide HeadsBmm;
    assert (ops + [o])[..|ops|] == ops;
  }

  lemma KeptStep(ops: seq<Op>, dead: set<string>, k: nat)
    requires k < |ops|
    ensures ops[k].name in dead ==> KeptOps(ops, dead, k + 1) == KeptOps(ops, dead, k)
    ensures ops[k].name !in dead ==> KeptOps(ops, dead, k + 1) == KeptOps(ops, dead, k) + [ops[k]]
  {
    assert KeptOps(ops, dead, k) + [] == KeptOps(ops, dead, k);
  }

  lemma NoHeads(ops: seq<Op>, dead: set<string>)
    ensures Heads(KeptOps(ops, dead, 0)) == 0
  {
  }

  lemma {:induction false} KeptHeads(ops: seq<Op>, dead: set<string>, k: nat, head: nat)
    requires k <= |ops| && head < |ops| && ops[head].name in dead && HeadsBmm(ops[head])
    ensures Heads(KeptOps(ops, dead, k)) + (if head < k then 1 else 0) <= Heads(ops[..k])
  {
    hide *;
    if k == 0 {
      NoHeads(ops, dead);
    } else {
      var o, before := ops[k - 1], ops[..k - 1];
      assert ops[..k] == before + [o];
      KeptHeads(ops, dead, k - 1, head);
      KeptStep(ops, dead, k - 1);
      HeadsOne(before, o);
      HeadsOne(KeptOps(ops, dead, k - 1), o);
    }
  }

  lemma SplicedIs(ops: seq<Op>, dead: set<string>, fresh_: Op)
    ensures var kept := KeptOps(ops, dead, |ops|); var p := InsertAt(ops, dead, kept, fresh_);
      p <= |kept| && Spliced(ops, dead, fresh_) == kept[..p] + [fresh_] + kept[p..]
  {
    hide KeptOps, AfterProducers, FirstDead;
  }

  lemma SpliceHeads(ops: seq<Op>, dead: set<string>, fresh_: Op, head: nat)
    requires head < |ops| && ops[head].name in dead && HeadsBmm(ops[head]) && !HeadsBmm(fresh_)
    ensures Heads(Spliced(ops, dead, fresh_)) < Heads(ops)
  {
    hide *;
    var kept := KeptOps(ops, dead, |ops|);
    var p := InsertAt(ops, dead, kept, fresh_);
    SplicedIs(ops, dead, fresh_);
    assert ops[..|ops|] == ops;
    KeptHeads(ops, dead, |ops|, head);
    InsertionRange(ops, dead, kept, fresh_);
    assert kept == kept[..p] + kept[p..];
    HeadsAppend(kept[..p], kept[p..]);
    HeadsAppend(kept[..p] + [fresh_], kept[p..]);
    HeadsOne(kept[..p], fresh_);
  }

  function DeadTensors(g: Net, m: Match, fresh_: Op): set<Name>
    requires m.pv < |g.ops| && forall k :: 0 <= k < |m.absorbed| ==> m.absorbed[k] < |g.ops|
  {
    set o, t | o in DeadOps(g, m) && t in o.outputs && t !in fresh_.inputs && t !in fresh_.outputs :: t
  }

  /** The ops that go away and their stages. */
  function DeadOps(g: Net, m: Match): seq<Op>
    requires m.pv < |g.ops| && forall k :: 0 <= k < |m.absorbed| ==> m.absorbed[k] < |g.ops|
  {
    StagesUpTo(g, m.absorbed, |m.absorbed|) + StagesOf(g.ops[m.pv]) + [g.ops[m.pv]]
  }

  function StagesUpTo(g: Net, at: seq<nat>, k: nat): seq<Op>
    requires k <= |at| && forall j :: 0 <= j < |at| ==> at[j] < |g.ops|
  {
    if k == 0 then [] else StagesUpTo(g, at, k - 1) + StagesOf(g.ops[at[k - 1]]) + [g.ops[at[k - 1]]]
  }

  /** Layout numbers for the replacement, if operands and result can be addressed. */
  type Layout = Match -> Option<map<string, int>>

  predicate FusableAt(g: Net, head: nat, lookup: Lookup, layout: Layout)
    requires Listed(g.ops) && head < |g.ops|
  {
    MatchAt(g, head, lookup).Some? && layout(MatchAt(g, head, lookup).value).Some?
  }

  lemma MatchUsable(g: Net, head: nat, lookup: Lookup)
    requires Ready(g) && head < |g.ops| && MatchAt(g, head, lookup).Some?
    ensures var m := MatchAt(g, head, lookup).value;
      && m.head == head && head < m.pv && Usable(g, m)
      && HeadsBmm(g.ops[head]) && g.ops[head].name in DeadNames(g, m)
      && forall t :: t in StagesOf(g.ops[head])[0].inputs ==> t in g.ops[head].inputs
  {
    MatchIsPrivate(g, head, lookup);
    var m := MatchAt(g, head, lookup).value;
    assert g.ops[head] in g.ops && g.ops[m.pv] in g.ops;
    assert HeadsBmm(g.ops[m.pv]);
  }

  function FuseAt(g: Net, head: nat, lookup: Lookup, layout: Layout): Net
    requires Ready(g) && head < |g.ops| && FusableAt(g, head, lookup, layout)
  {
    MatchUsable(g, head, lookup);
    var m := MatchAt(g, head, lookup).value;
    var fresh_ := AttentionOp(g, m, layout(m).value);
    Net(Spliced(g.ops, DeadNames(g, m), fresh_), g.tensors - DeadTensors(g, m, fresh_), g.outs)
  }

  /** `t` is made by an op that goes away, or by one of its stages. */
  ghost predicate MadeByDead(g: Net, m: Match, t: Name)
    requires Inside(g, m)
  {
    exists d: nat :: (d == m.pv || d in m.absorbed) && MakesInside(g, d, t)
  }

  ghost predicate MakesInside(g: Net, d: nat, t: Name) {
    d < |g.ops| && (t in g.ops[d].outputs || exists st :: st in StagesOf(g.ops[d]) && t in st.outputs)
  }

  lemma {:induction false} StagesUpToHas(g: Net, at: seq<nat>, k: nat, t: Name)
    requires k <= |at| && forall j :: 0 <= j < |at| ==> at[j] < |g.ops|
    ensures (exists o :: o in StagesUpTo(g, at, k) && t in o.outputs) <==> exists j :: 0 <= j < k && MakesInside(g, at[j], t)
  {
    if k > 0 {
      StagesUpToHas(g, at, k - 1, t);
      var o := g.ops[at[k - 1]];
      assert forall x :: x in StagesUpTo(g, at, k) <==> x in StagesUpTo(g, at, k - 1) || x in StagesOf(o) || x == o;
      hide StagesUpTo, StagesOf;
      if MakesInside(g, at[k - 1], t) {
        assert exists x :: x in StagesUpTo(g, at, k) && t in x.outputs;
      }
    }
  }

  /** The replacement takes exactly those tensors off the table that an op it stands for made, itself or in
      a stage, and that it does not read or make. */
  lemma TableAfterFuse(g: Net, head: nat, lookup: Lookup, layout: Layout, t: Name)
    requires Ready(g) && head < |g.ops| && FusableAt(g, head, lookup, layout)
    ensures var m, h := MatchAt(g, head, lookup).value, FuseAt(g, head, lookup, layout);
      && Usable(g, m)
      && var fresh_ := AttentionOp(g, m, layout(m).value);
         && (t in h.tensors <==> t in g.tensors && !(MadeByDead(g, m, t) && t !in fresh_.inputs && t !in fresh_.outputs))
         && (t in h.tensors ==> h.tensors[t] == g.tensors[t])
  {
    MatchUsable(g, head, lookup);
    var m := MatchAt(g, head, lookup).value;
    StagesUpToHas(g, m.absorbed, |m.absorbed|, t);
    DeadOpsMake(g, m, t);
    hide MatchAt, AttentionOp, Spliced, DeadNames, Ready, DeadOps, MadeByDead;
  }

  lemma DeadOpsMake(g: Net, m: Match, t: Name)
    requires Inside(g, m)
    ensures (exists o :: o in DeadOps(g, m) && t in o.outputs) <==> MadeByDead(g, m, t)
  {
    StagesUpToHas(g, m.absorbed, |m.absorbed|, t);
    var all, pv := StagesUpTo(g, m.absorbed, |m.absorbed|), g.ops[m.pv];
    assert forall x :: x in DeadOps(g, m) <==> x in all || x in StagesOf(pv) || x == pv;
    hide StagesUpTo, StagesOf, DeadOps;
    if o :| o in DeadOps(g, m) && t in o.outputs {
      if o in all {
        var j :| 0 <= j < |m.absorbed| && MakesInside(g, m.absorbed[j], t);
        assert m.absorbed[j] in m.absorbed;
      } else {
        assert MakesInside(g, m.pv, t);
      }
    }
    if d: nat :| (d == m.pv || d in m.absorbed) && MakesInside(g, d, t) {
      if d in m.absorbed {
        var j :| 0 <= j < |m.absorbed| && m.absorbed[j] == d;
      }
    }
  }

  lemma {:induction false} KeptMembers(ops: seq<Op>, dead: set<string>, k: nat, o: Op)
    requires k <= |ops| && o in KeptOps(ops, dead, k)
    ensures o in ops
  {
    if o !in KeptOps(ops, dead, k - 1) {
      assert o == ops[k - 1];
    } else {
      KeptMembers(ops, dead, k - 1, o);
    }
  }

  lemma SplicedMembers(ops: seq<Op>, dead: set<string>, fresh_: Op, o: Op)
    requires o in Spliced(ops, dead, fresh_)
    ensures o == fresh_ || o in ops
  {
    var kept := KeptOps(ops, dead, |ops|);
    var p := InsertAt(ops, dead, kept, fresh_);
    hide InsertAt, KeptOps;
    InsertionRange(ops, dead, kept, fresh_);
    if o != fresh_ {
      assert o in kept[..p] || o in kept[p..];
      KeptMembers(ops, dead, |ops|, o);
    }
  }

  /** One replacement leaves a graph in data-flow order with fewer score bmms. */
  lemma FuseAtKeeps(g: Net, head: nat, lookup: Lookup, layout: Layout)
    requires Ready(g) && head < |g.ops| && FusableAt(g, head, lookup, layout)
    ensures Ready(FuseAt(g, head, lookup, layout))
    ensures Heads(FuseAt(g, head, lookup, layout).ops) < Heads(g.ops)
  {
    MatchUsable(g, head, lookup);
    var m := MatchAt(g, head, lookup).value;
    var fresh_ := AttentionOp(g, m, layout(m).value);
    var dead := DeadNames(g, m);
    NewOpFits(g, m, layout(m).value, dead);
    var ops := g.ops;
    SplicedReady(g, dead, fresh_, head, m.pv);
    FuseAtIs(g, head, lookup, layout);
    hide *;
    SpliceHeads(ops, dead, fresh_, head);
  }

  lemma FuseAtIs(g: Net, head: nat, lookup: Lookup, layout: Layout)
    requires Ready(g) && head < |g.ops| && FusableAt(g, head, lookup, layout)
    ensures var m := MatchAt(g, head, lookup).value;
      && Usable(g, m)
      && FuseAt(g, head, lookup, layout).ops == Spliced(g.ops, DeadNames(g, m), AttentionOp(g, m, layout(m).value))
  {
    MatchUsable(g, head, lookup);
    hide MatchAt, AttentionOp, Spliced, DeadNames, DeadTensors, Ready;
  }

  lemma SplicedReady(g: Net, dead: set<string>, fresh_: Op, head: nat, pv: nat)
    requires Ready(g) && StandsIn(g.ops, dead, fresh_, head, pv) && !HeadsBmm(fresh_) && fresh_.outputs != []
    ensures forall h: Net :: h.ops == Spliced(g.ops, dead, fresh_) ==> Ready(h)
  {
    SpliceFlows(g.ops, dead, fresh_, head, pv);
    hide Spliced, HeadsBmm, StandsIn, Flows;
    forall o | o in Spliced(g.ops, dead, fresh_)
      ensures o == fresh_ || o in g.ops
    {
      SplicedMembers(g.ops, dead, fresh_, o);
    }
  }

  lemma NewOpFits(g: Net, m: Match, shape: map<string, int>, dead: set<string>)
    requires Usable(g, m) && m.head < m.pv
    requires g.ops[m.head].name in dead && g.ops[m.pv].name in dead
    requires forall t :: t in StagesOf(g.ops[m.head])[0].inputs ==> t in g.ops[m.head].inputs
    ensures var f := AttentionOp(g, m, shape); StandsIn(g.ops, dead, f, m.head, m.pv) && !HeadsBmm(f) && f.outputs != []
  {
    var f := AttentionOp(g, m, shape);
    var a := StagesOf(g.ops[m.head])[0].inputs;
    assert forall t :: t in a[..2] ==> t in a;
    assert f.body.kind == KIND && |KIND| != |"bmm_f16"|;
  }

  /** `g` comes from `g0` by `n` replacements. */
  ghost predicate Fusions(g0: Net, lookup: Lookup, layout: Layout, g: Net, n: nat)
    decreases n
  {
    if n == 0 then g == g0
    else exists mid, head: nat :: Fusions(g0, lookup, layout, mid, n - 1) && OneFusion(mid, head, lookup, layout, g)
  }

  ghost predicate OneFusion(mid: Net, head: nat, lookup: Lookup, layout: Layout, g: Net) {
    Ready(mid) && head < |mid.ops| && FusableAt(mid, head, lookup, layout) && g == FuseAt(mid, head, lookup, layout)
  }

  /** Rewrites until nothing matches. Each round replaces one chain and leaves fewer ops headed by a
      score bmm, so the loop ends. */
  method Fuse(g0: Net, lookup: Lookup, layout: Layout) returns (g: Net)
    requires Ready(g0)
    ensures Ready(g) && exists n: nat :: Fusions(g0, lookup, layout, g, n) && Heads(g.ops) + n <= Heads(g0.ops)
    ensures forall i :: 0 <= i < |g.ops| ==> !FusableAt(g, i, lookup, layout)
  {
    hide MatchAt, FuseAt, Heads;
    g := g0;
    ghost var n: nat := 0;
    var changed := true;
    while changed
      invariant Ready(g) && Fusions(g0, lookup, layout, g, n) && Heads(g.ops) + n <= Heads(g0.ops)
      invariant !changed ==> forall i :: 0 <= i < |g.ops| ==> !FusableAt(g, i, lookup, layout)
      decreases Heads(g.ops), changed
    {
      changed := false;
      var i := 0;
      while i < |g.ops| && !changed
        invariant 0 <= i <= |g.ops| && Ready(g)
        invariant !changed ==> forall j :: 0 <= j < i ==> !FusableAt(g, j, lookup, layout)
        invariant changed ==> i < |g.ops| && FusableAt(g, i, lookup, layout)
        decreases |g.ops| - i, !changed
      {
        var m := FindMatch(g, i, lookup);
        if m.Some? && layout(m.value).Some? {
          changed := true;
        } else {
          i := i + 1;
        }
      }
      if changed {
        FuseAtKeeps(g, i, lookup, layout);
        ghost var mid := g;
        g := FuseAt(g, i, lookup, layout);
        assert OneFusion(mid, i, lookup, layout, g);
        n := n + 1;
      }
    }
  }
}
