/** The rewrite loop of attention fusion as a whole (pipeline/attention_fuse.py): names stay apart and
    values stay what they were, however many chains are replaced. */
module AttentionLoop {
  import opened Ir
  import opened Schedules
  import opened JoinedNames
  import opened Attention
  import opened AttentionKernels
  import opened AttentionFuse
  import opened AttentionMeaning
  import opened AttentionRewriting
  import opened AttentionPaths

  // ---------------------------------------------------------------- names

  /** No two names share a part between plus signs. */
  ghost predicate Apart(ops: seq<Op>) {
    forall i, j :: 0 <= i < |ops| && 0 <= j < |ops| && i != j ==> Pieces(ops[i].name) !! Pieces(ops[j].name)
  }

  lemma ApartIsUnique(ops: seq<Op>)
    requires Apart(ops)
    ensures UniqueNames(ops)
  {
    hide Pieces;
    forall i, j | 0 <= i < j < |ops|
      ensures ops[i].name != ops[j].name
    {
      HasPiece(ops[i].name);
      assert Pieces(ops[i].name) !! Pieces(ops[j].name);
    }
  }

  lemma HasPiece(s: string)
    ensures Pieces(s) != {}
  {
  }

  /** Different names without plus signs are apart. */
  lemma PlainNamesAreApart(ops: seq<Op>)
    requires UniqueNames(ops) && forall o :: o in ops ==> '+' !in o.name
    ensures Apart(ops)
  {
    hide Pieces;
    forall i, j | 0 <= i < |ops| && 0 <= j < |ops| && i != j
      ensures Pieces(ops[i].name) !! Pieces(ops[j].name)
    {
      PlainPieces(ops[i].name);
      PlainPieces(ops[j].name);
    }
  }

  lemma {:induction false} MiddleIsDead(g: Net, m: Match, k: nat, name: string)
    requires Inside(g, m) && k < |m.absorbed| && name in Middle(g, m.absorbed, k)
    ensures name in DeadNames(g, m)
  {
    if name in Middle(g, m.absorbed, k - 1) {
      MiddleIsDead(g, m, k - 1, name);
    } else {
      assert name == g.ops[m.absorbed[k]].name;
    }
  }

  /** Every piece of the new name is a piece of a name that goes away. */
  lemma NewPieces(g: Net, m: Match, p: string) returns (d: nat)
    requires Inside(g, m) && m.head == m.absorbed[0] && p in Pieces(Joined(JoinedNamesOf(g, m)))
    ensures d < |g.ops| && g.ops[d].name in DeadNames(g, m) && p in Pieces(g.ops[d].name)
  {
    var names := JoinedNamesOf(g, m);
    hide Pieces;
    PiecesOfJoined(names, p);
    var name :| name in names && p in Pieces(name);
    if name == g.ops[m.head].name {
      d := m.head;
    } else if name == g.ops[m.pv].name {
      d := m.pv;
    } else {
      MiddleIsDead(g, m, |m.absorbed| - 1, name);
      if k: nat :| k < |m.absorbed| && g.ops[m.absorbed[k]].name == name {
        d := m.absorbed[k];
      } else {
        d := m.pv;
      }
    }
  }

  lemma SplicedApart(s: Swap)
    requires IsSwap(s) && Apart(s.g.ops) && s.fresh_.name == Joined(JoinedNamesOf(s.g, s.m))
    ensures Apart(s.after)
  {
    var ops := s.g.ops;
    var kept, at := KeptOps(ops, s.dead, |ops|), Kept(ops, s.dead, |ops|);
    var p := InsertAt(ops, s.dead, kept, s.fresh_);
    hide *;
    SwapSound(s);
    KeptOpsAre(ops, s.dead, |ops|);
    SplicedIs(ops, s.dead, s.fresh_);
    forall b | 0 <= b < |kept|
      ensures Pieces(kept[b].name) !! Pieces(s.fresh_.name)
    {
      KeptApart(s, at[b]);
    }
    forall a, b | 0 <= a < |kept| && 0 <= b < |kept| && a != b
      ensures Pieces(kept[a].name) !! Pieces(kept[b].name)
    {
      assert at[a] != at[b];
      TwoApart(ops, at[a], at[b]);
    }
    InsertedApart(kept, p, s.fresh_);
  }

  lemma TwoApart(ops: seq<Op>, i: nat, j: nat)
    requires Apart(ops) && i < |ops| && j < |ops| && i != j
    ensures Pieces(ops[i].name) !! Pieces(ops[j].name)
  {
    hide Pieces;
  }

  lemma KeptApart(s: Swap, i: nat)
    requires IsSwap(s) && Apart(s.g.ops) && s.fresh_.name == Joined(JoinedNamesOf(s.g, s.m))
    requires i < |s.g.ops| && s.g.ops[i].name !in s.dead
    ensures Pieces(s.g.ops[i].name) !! Pieces(s.fresh_.name)
  {
    hide Pieces, Joined, JoinedNamesOf, Apart, DeadNames;
    forall p | p in Pieces(s.fresh_.name)
      ensures p !in Pieces(s.g.ops[i].name)
    {
      var d := NewPieces(s.g, s.m, p);
      TwoApart(s.g.ops, i, d);
    }
  }

  lemma InsertedApart(kept: seq<Op>, p: nat, fresh_: Op)
    requires p <= |kept| && forall b :: 0 <= b < |kept| ==> Pieces(kept[b].name) !! Pieces(fresh_.name)
    requires forall a, b :: 0 <= a < |kept| && 0 <= b < |kept| && a != b ==> Pieces(kept[a].name) !! Pieces(kept[b].name)
    ensures Apart(kept[..p] + [fresh_] + kept[p..])
  {
    hide Pieces;
    var all := kept[..p] + [fresh_] + kept[p..];
    forall i, j | 0 <= i < |all| && 0 <= j < |all| && i != j
      ensures Pieces(all[i].name) !! Pieces(all[j].name)
    {
      var a, b := if i < p then i else i - 1, if j < p then j else j - 1;
      assert i != p ==> all[i] == kept[a];
      assert j != p ==> all[j] == kept[b];
    }
  }

  // ---------------------------------------------------------------- one round keeps what the next needs

  lemma FuseAtKeepsSound(g: Net, head: nat, lookup: Lookup, layout: Layout, env: Env)
    requires Sound(g) && Apart(g.ops) && CleanAt(g, head, lookup, layout, env)
    ensures var h := FuseAt(g, head, lookup, layout);
      && Sound(h) && Apart(h.ops) && h.outs == g.outs && forall t :: MadeBy(h.ops, t) ==> MadeBy(g.ops, t)
  {
    var s := FusionIsSwap(g, head, lookup, layout, env);
    FuseAtKeeps(g, head, lookup, layout);
    FuseAtTensors(g, head, lookup, layout);
    var h := FuseAt(g, head, lookup, layout);
    assert s.fresh_.name == Joined(JoinedNamesOf(g, s.m)) by { hide Joined, JoinedNamesOf; }
    hide FuseAt, MatchAt, CleanAt, AttentionOp, Joined, JoinedNamesOf, Apart, Flows;
    SoundAfter(s);
    SplicedApart(s);
    ApartIsUnique(s.after);
    forall t | MadeBy(h.ops, t)
      ensures MadeBy(g.ops, t)
    {
      MadeBefore(s, t);
    }
    ConstantsAfter(s, h);
  }

  lemma FuseAtTensors(g: Net, head: nat, lookup: Lookup, layout: Layout)
    requires Ready(g) && head < |g.ops| && FusableAt(g, head, lookup, layout)
    ensures var h := FuseAt(g, head, lookup, layout);
      h.outs == g.outs && forall t :: t in h.tensors ==> t in g.tensors && h.tensors[t] == g.tensors[t]
  {
    MatchUsable(g, head, lookup);
    hide MatchAt, AttentionOp, Spliced, DeadNames, DeadTensors, Ready;
  }

  lemma MadeBefore(s: Swap, t: Name)
    requires IsSwap(s) && MadeBy(s.after, t)
    ensures MadeBy(s.g.ops, t)
  {
    hide Spliced, Passes, CleanMatch, DeadNames;
    var o :| o in s.after && t in o.outputs;
    SplicedMember(s.g.ops, s.dead, s.fresh_, o);
    if o == s.fresh_ {
      assert s.g.ops[s.m.pv] in s.g.ops;
    }
  }

  lemma ConstantsAfter(s: Swap, h: Net)
    requires IsSwap(s) && h.ops == s.after
    requires forall t :: t in h.tensors ==> t in s.g.tensors && h.tensors[t] == s.g.tensors[t]
    ensures ConstantsStay(h)
  {
    hide Spliced, Passes, CleanMatch, DeadNames;
    forall o, st, t | o in h.ops && (st == o || st in StagesOf(o)) && t in st.outputs
      ensures !IsConst(h.tensors, t)
    {
      SplicedMember(s.g.ops, s.dead, s.fresh_, o);
      if o == s.fresh_ {
        assert st == o;
        assert s.g.ops[s.m.pv] in s.g.ops && t in s.g.ops[s.m.pv].outputs;
        assert !IsConst(s.g.tensors, t);
      } else {
        assert o in s.g.ops && !IsConst(s.g.tensors, t);
      }
    }
  }

  // ---------------------------------------------------------------- all rounds

  /** What one round keeps. */
  lemma FuseAtKeepsClean(g: Net, head: nat, lookup: Lookup, layout: Layout, env: Env)
    requires Sound(g) && CleanAt(g, head, lookup, layout, env) && CleanGraph(g, lookup, env)
    ensures CleanGraph(FuseAt(g, head, lookup, layout), lookup, env)
  {
    var s := FusionIsSwap(g, head, lookup, layout, env);
    FuseAtTensors(g, head, lookup, layout);
    assert s.fresh_.body.kind == KIND by { hide FuseAt, MatchAt, JoinedNamesOf, Joined; }
    var h := FuseAt(g, head, lookup, layout);
    hide *;
    StaysClean(s, h, lookup, env);
  }

  /** However many chains of a clean graph were replaced: the graph is sound and clean, its names are
      apart, and every tensor that did not go away has its old value. */
  lemma {:induction false} FusionsPreserveMeaning(k: Kernels, soft: Soft, g0: Net, lookup: Lookup, layout: Layout, env: Env, g: Net, n: nat)
    requires Sound(g0) && Apart(g0.ops) && Interprets(k, soft) && CleanGraph(g0, lookup, env) && LayoutSplits(layout)
    requires Fusions(g0, lookup, layout, g, n)
    ensures Sound(g) && Apart(g.ops) && CleanGraph(g, lookup, env) && g.outs == g0.outs && forall t :: MadeBy(g.ops, t) ==> MadeBy(g0.ops, t)
    ensures forall t :: !Gone(g0.ops, g.ops, t) ==> Read(Run(k, g.ops, env), t) == Read(Run(k, g0.ops, env), t)
    ensures forall t :: t in g0.outs ==> !Gone(g0.ops, g.ops, t)
    decreases n
  {
    hide Sound, Apart, Interprets, FuseAt, FusableAt, CleanAt, CleanGraph, LayoutSplits, Run, Ready;
    if n > 0 {
      var mid, head: nat :| Fusions(g0, lookup, layout, mid, n - 1) && OneFusion(mid, head, lookup, layout, g);
      FusionsPreserveMeaning(k, soft, g0, lookup, layout, env, mid, n - 1);
      CleanGraphMatches(mid, head, lookup, layout, env);
      FuseAtKeepsSound(mid, head, lookup, layout, env);
      FuseAtKeepsClean(mid, head, lookup, layout, env);
      forall t | !Gone(g0.ops, g.ops, t)
        ensures Read(Run(k, g.ops, env), t) == Read(Run(k, g0.ops, env), t)
      {
        hide MadeBy;
        FusingPreservesMeaning(k, soft, mid, head, lookup, layout, env, t);
      }
      forall t | t in g0.outs
        ensures !Gone(g0.ops, g.ops, t)
      {
        hide MadeBy;
        OutputsAreKept(mid, head, lookup, layout, env, t);
      }
    }
  }
}
