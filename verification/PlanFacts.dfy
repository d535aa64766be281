/** What the tables of the workspace planner hold (pipeline/composite_seed.py), told without the scans
    that fill them. */
module PlanFacts {
  import opened Ir
  import opened Shapes
  import opened TextOrder
  import opened Planner

  // ---------------------------------------------------------------- views

  /** A chain of views: each is an alias of the next. */
  ghost predicate ViewChain(al: Aliases, path: seq<Name>) {
    path != [] && forall i :: 0 <= i < |path| - 1 ==> path[i] in al && al[path[i]].0 == path[i + 1]
  }

  ghost function SumOffsets(al: Aliases, path: seq<Name>): int {
    if |path| <= 1 then 0 else (if path[0] in al then al[path[0]].1 else 0) + SumOffsets(al, path[1..])
  }

  /** No tensor but perhaps the last occurs twice. */
  ghost predicate Once(path: seq<Name>) {
    forall i, j :: 0 <= i < j < |path| - 1 ==> path[i] != path[j]
  }

  lemma {:induction false} ResolvesFrom(al: Aliases, t: Name, off: int, seen: set<Name>) returns (path: seq<Name>)
    ensures ViewChain(al, path) && Once(path) && path[0] == t && forall i :: 0 <= i < |path| - 1 ==> path[i] !in seen
    ensures ResolveFrom(al, t, off, seen) == (path[|path| - 1], off + SumOffsets(al, path))
    ensures path[|path| - 1] !in al || path[|path| - 1] in seen || path[|path| - 1] in path[..|path| - 1]
    decreases al.Keys - seen
  {
    if t in al && t !in seen {
      var rest := ResolvesFrom(al, al[t].0, off + al[t].1, seen + {t});
      path := [t] + rest;
      assert path[1..] == rest;
      var last := |rest| - 1;
      assert path[..|path| - 1] == [t] + rest[..last];
    } else {
      path := [t];
    }
  }

  /** A tensor's memory belongs to the end of its chain of views, at the sum of the offsets along it. The
      chain ends at a tensor that is no view, or where it comes back to itself. */
  lemma ResolvesAlongViews(al: Aliases, t: Name) returns (path: seq<Name>)
    ensures ViewChain(al, path) && Once(path) && path[0] == t
    ensures Root(al, t) == path[|path| - 1] && Offset(al, t) == SumOffsets(al, path)
    ensures Root(al, t) !in al || Root(al, t) in path[..|path| - 1]
  {
    path := ResolvesFrom(al, t, 0, {});
  }

  // ---------------------------------------------------------------- parameters

  ghost predicate Gives(al: Aliases, tensors: Tensors, args: seq<Arg>, k: nat, r: Name) {
    k < |args| && args[k].Ptr? && args[k].t in tensors && Root(al, args[k].t) == r
  }

  /** Argument `k` is the first that points into `r`, and `bound` is how to get there. */
  ghost predicate FirstGives(al: Aliases, tensors: Tensors, args: seq<Arg>, k: nat, r: Name, bound: (string, int)) {
    && Gives(al, tensors, args, k, r) && (forall j: nat :: j < k ==> !Gives(al, tensors, args, j, r))
    && bound == (args[k].param, Offset(al, args[k].t))
  }

  /** A root is reached through the first pointer parameter of the new op that points into it, at that
      parameter's offset; roots no parameter points into go to the workspace. */
  lemma {:induction false} ParamsAreFirst(al: Aliases, tensors: Tensors, args: seq<Arg>, r: Name)
    ensures r in ParamRoots(al, tensors, args) <==> exists k: nat :: Gives(al, tensors, args, k, r)
    ensures r in ParamRoots(al, tensors, args) ==> exists k: nat :: FirstGives(al, tensors, args, k, r, ParamRoots(al, tensors, args)[r])
  {
    if args != [] {
      var n: nat := |args| - 1;
      var init := args[..n];
      ParamsAreFirst(al, tensors, init, r);
      hide Root, Offset;
      assert forall k: nat :: k < n ==> (Gives(al, tensors, init, k, r) <==> Gives(al, tensors, args, k, r));
      if r in ParamRoots(al, tensors, init) {
        var k: nat :| FirstGives(al, tensors, init, k, r, ParamRoots(al, tensors, init)[r]);
        assert FirstGives(al, tensors, args, k, r, ParamRoots(al, tensors, args)[r]);
      } else if Gives(al, tensors, args, n, r) {
        assert FirstGives(al, tensors, args, n, r, ParamRoots(al, tensors, args)[r]);
      } else {
        assert forall k: nat :: !Gives(al, tensors, args, k, r);
      }
    }
  }

  // ---------------------------------------------------------------- the guard

  predicate IsIntScalar(a: Arg) { a.Scalar? && a.isInt }

  ghost predicate Guards(args: seq<Arg>, n: nat, at: seq<nat>) {
    && (forall j, k :: 0 <= j < k < |at| ==> at[j] < at[k])
    && (forall k :: 0 <= k < |at| ==> n <= at[k] < |args| && IsIntScalar(args[at[k]]))
    && forall i: nat :: n <= i < |args| && IsIntScalar(args[i]) ==> i in at
  }

  lemma GuardsOneMore(args: seq<Arg>, n: nat, at: seq<nat>)
    requires n < |args| && Guards(args, n + 1, at)
    ensures IsIntScalar(args[n]) ==> Guards(args, n, [n] + at)
    ensures !IsIntScalar(args[n]) ==> Guards(args, n, at)
  {
    hide IsIntScalar;
    var all := [n] + at;
    forall i: nat | n <= i < |args| && IsIntScalar(args[i])
      ensures i in all
    {
      assert i == n || i in at;
    }
  }

  lemma GuardStep(args: seq<Arg>, n: nat)
    requires n < |args|
    ensures IsIntScalar(args[n]) ==> args[n].Scalar? && Guard(args[n..]) == [(args[n].param, args[n].value)] + Guard(args[n + 1..])
    ensures !IsIntScalar(args[n]) ==> Guard(args[n..]) == Guard(args[n + 1..])
  {
    assert args[n..][0] == args[n] && args[n..][1..] == args[n + 1..];
  }

  /** Entry `k` of the guard is for argument `at[k]`. */
  ghost predicate GuardEntries(args: seq<Arg>, at: seq<nat>, guard: seq<(string, int)>) {
    |at| == |guard| && forall k :: 0 <= k < |at| ==> at[k] < |args| && IsIntScalar(args[at[k]]) && guard[k] == (args[at[k]].param, args[at[k]].value)
  }

  /** The guard checks every integer argument the plan was made for, each once and in order. */
  lemma {:induction false} GuardsIntegers(args: seq<Arg>, n: nat) returns (at: seq<nat>)
    requires n <= |args|
    ensures Guards(args, n, at) && GuardEntries(args, at, Guard(args[n..]))
    decreases |args| - n
  {
    if n == |args| {
      at := [];
    } else {
      hide *;
      var rest := GuardsIntegers(args, n + 1);
      GuardsOneMore(args, n, rest);
      GuardStep(args, n);
      if IsIntScalar(args[n]) {
        EntriesMore(args, n, rest, Guard(args[n + 1..]));
        at := [n] + rest;
      } else {
        at := rest;
      }
    }
  }

  lemma EntriesMore(args: seq<Arg>, n: nat, at: seq<nat>, guard: seq<(string, int)>)
    requires n < |args| && IsIntScalar(args[n]) && GuardEntries(args, at, guard)
    ensures args[n].Scalar? && GuardEntries(args, [n] + at, [(args[n].param, args[n].value)] + guard)
  {
  }

  // ---------------------------------------------------------------- when the scan refuses

  /** Reading needs an earlier touch of the same memory. */
  ghost predicate TouchedBefore(c: Context, es: seq<(nat, Arg)>, k: nat, r: Name) {
    exists j :: 0 <= j < k && j < |es| && TouchesRoot(c, es[j].1, r)
  }

  /** Why argument `k` is refused, if it is. */
  ghost predicate Refuses(c: Context, es: seq<(nat, Arg)>, k: nat, e: Refusal)
    requires k < |es|
  {
    var a := es[k].1;
    match e
    case WeightInside => a.Weight?
    case Unverified => OwnMemory(c, a) && IsConst(c.tensors, Root(c.al, a.t)) && MetaOf(c.tensors, Root(c.al, a.t)).const_ !in c.verified
    case BadConstant =>
      && OwnMemory(c, a) && IsConst(c.tensors, Root(c.al, a.t)) && MetaOf(c.tensors, Root(c.al, a.t)).const_ in c.verified
      && (MetaOf(c.tensors, Root(c.al, a.t)).dtype != "f16" || |MetaOf(c.tensors, Root(c.al, a.t)).shape| < 2)
    case ReadsUnproduced =>
      OwnMemory(c, a) && !IsConst(c.tensors, Root(c.al, a.t)) && a.dir == In && !TouchedBefore(c, es, k, Root(c.al, a.t))
    case _ => false
  }

  /** A pointer into memory that no parameter gives. */
  ghost predicate OwnMemory(c: Context, a: Arg) { a.Ptr? && Root(c.al, a.t) !in c.params }

  ghost predicate Fine(c: Context, es: seq<(nat, Arg)>, k: nat)
    requires k < |es|
  {
    forall e :: !Refuses(c, es, k, e)
  }

  lemma {:induction false} FirstsAreTouched(c: Context, es: seq<(nat, Arg)>, r: Name)
    requires LiveOf(c, es).Ok?
    ensures r in LiveOf(c, es).value.first <==> TouchedBefore(c, es, |es|, r)
  {
    if es != [] {
      var n: nat := |es| - 1;
      FirstsAreTouched(c, es[..n], r);
      TouchedLater(c, es, n, r);
    }
  }

  lemma TouchedLater(c: Context, es: seq<(nat, Arg)>, n: nat, r: Name)
    requires n < |es|
    ensures TouchedBefore(c, es[..n], n, r) <==> TouchedBefore(c, es, n, r)
    ensures TouchedBefore(c, es, n + 1, r) <==> TouchedBefore(c, es, n, r) || TouchesRoot(c, es[n].1, r)
  {
    hide TouchesRoot;
    if TouchedBefore(c, es, n, r) {
      var j :| 0 <= j < n && TouchesRoot(c, es[j].1, r);
      assert es[..n][j] == es[j];
    }
  }

  /** The scan goes on exactly over arguments that nothing speaks against, and otherwise gives the reason
      that speaks against the first one. */
  lemma {:induction false} RefusedIff(c: Context, es: seq<(nat, Arg)>)
    ensures LiveOf(c, es).Ok? <==> forall k: nat :: k < |es| ==> Fine(c, es, k)
    ensures LiveOf(c, es).Err? ==> exists k: nat :: k < |es| && Refuses(c, es, k, LiveOf(c, es).error) && forall j: nat :: j < k ==> Fine(c, es, j)
  {
    if es != [] {
      var n: nat := |es| - 1;
      var init := es[..n];
      RefusedIff(c, init);
      forall k: nat | k < n
        ensures Fine(c, init, k) <==> Fine(c, es, k)
        ensures forall e :: Refuses(c, init, k, e) <==> Refuses(c, es, k, e)
      {
        SameRefusals(c, es, n, k);
      }
      if LiveOf(c, init).Ok? {
        LastRefused(c, es);
        hide LiveOf, Refuses;
        if LiveOf(c, es).Err? {
          assert Refuses(c, es, n, LiveOf(c, es).error);
          assert !Fine(c, es, n);
        } else {
          assert Fine(c, es, n);
        }
      } else {
        hide Fine, Refuses;
        var k: nat :| k < n && Refuses(c, init, k, LiveOf(c, init).error) && forall j: nat :: j < k ==> Fine(c, init, j);
        assert Refuses(c, es, k, LiveOf(c, es).error);
        if Fine(c, es, k) {
          RefusedIsNotFine(c, es, k, LiveOf(c, es).error);
        }
      }
    }
  }

  lemma RefusedIsNotFine(c: Context, es: seq<(nat, Arg)>, k: nat, e: Refusal)
    requires k < |es| && Refuses(c, es, k, e)
    ensures !Fine(c, es, k)
  {
    hide Refuses;
  }

  lemma SameRefusals(c: Context, es: seq<(nat, Arg)>, n: nat, k: nat)
    requires k < n < |es|
    ensures Fine(c, es[..n], k) <==> Fine(c, es, k)
    ensures forall e :: Refuses(c, es[..n], k, e) <==> Refuses(c, es, k, e)
  {
    assert es[..n][k] == es[k];
    forall r
      ensures TouchedBefore(c, es[..n], k, r) <==> TouchedBefore(c, es, k, r)
    {
      hide TouchesRoot;
      if TouchedBefore(c, es, k, r) {
        var j :| 0 <= j < k && TouchesRoot(c, es[j].1, r);
        assert es[..n][j] == es[j];
      }
    }
    forall e
      ensures Refuses(c, es[..n], k, e) <==> Refuses(c, es, k, e)
    {
      hide TouchedBefore, IsConst, MetaOf, Root;
    }
    hide Refuses;
  }

  lemma LastRefused(c: Context, es: seq<(nat, Arg)>)
    requires es != [] && LiveOf(c, es[..|es| - 1]).Ok?
    ensures LiveOf(c, es).Ok? <==> Fine(c, es, |es| - 1)
    ensures LiveOf(c, es).Err? ==> Refuses(c, es, |es| - 1, LiveOf(c, es).error)
  {
    var n: nat := |es| - 1;
    var a := es[n].1;
    if a.Ptr? {
      FirstsAreTouched(c, es[..n], Root(c.al, a.t));
      TouchedLater(c, es, n, Root(c.al, a.t));
    }
    hide TouchedBefore, MetaOf, Root;
    forall e | Refuses(c, es, n, e)
      ensures LiveOf(c, es).Err?
    {
      match e
      case WeightInside =>
      case Unverified =>
      case BadConstant =>
      case ReadsUnproduced =>
    }
    if LiveOf(c, es).Err? {
      assert Refuses(c, es, n, LiveOf(c, es).error);
    }
  }

  // ---------------------------------------------------------------- sizes

  /** The number at the end of a name. */
  function BitsInName(dtype: string): nat {
    if dtype == "" then 0
    else
      var c := dtype[|dtype| - 1];
      if '0' <= c <= '9' then BitsInName(dtype[..|dtype| - 1]) * 10 + (c as int - '0' as int) else 0
  }

  /** An element takes the bits its type is named after; a truth value takes a byte, and a type without a
      number in its name four. */
  lemma BytesAreNamed(dtype: string)
    requires dtype in {"f16", "bf16", "f32", "i32", "i64", "u8", "i8"}
    ensures ElemBytes(dtype) * 8 == BitsInName(dtype)
  {
  }

  /** A root takes its bytes, rounded up to the next multiple of the alignment and no further. */
  lemma SizeIsLeast(tensors: Tensors, r: Name)
    requires SaneShapes(tensors)
    ensures Bytes(tensors, r) <= Size(tensors, r) < Bytes(tensors, r) + 256 && Size(tensors, r) % 256 == 0
  {
    SizeFacts(tensors, r);
    hide Numel, ElemBytes;
  }

  // ---------------------------------------------------------------- who shares a time, who comes first

  /** Lifetimes overlap exactly when some stage lies in both. */
  lemma OverlapIff(l: Live, r: Name, s: Name)
    requires r in l.first && r in l.last && s in l.first && s in l.last && l.first[r] <= l.last[r] && l.first[s] <= l.last[s]
    ensures Overlap(l, r, s) <==> exists i :: Within(l, r, i) && Within(l, s, i)
  {
    if Overlap(l, r, s) {
      var i := if l.first[r] < l.first[s] then l.first[s] else l.first[r];
      assert Within(l, r, i) && Within(l, s, i);
    }
  }

  /** Roots are placed in the order of their first stages, and by name where these agree. */
  lemma PlacedInOrder(first: map<Name, int>, order: seq<Name>, i: nat, j: nat)
    requires IsOrder(first, order) && i < j < |order|
    ensures order[i] in first && order[j] in first
    ensures first[order[i]] < first[order[j]] || (first[order[i]] == first[order[j]] && order[i] != order[j] && Precedes(order[i], order[j]))
  {
    NamesCompare(order[i], order[j]);
    hide StrLe, Precedes;
  }

  // ---------------------------------------------------------------- what a call passes

  /** An argument of a call: a pointer passes the address of its tensor's first byte, an absent tensor and a
      weight pass nothing, and a number passes itself. */
  ghost predicate Passes(c: Context, place: map<Name, int>, bound: map<string, (Name, int)>, a: Arg, passed: CallArg) {
    match a
    case Ptr(_, _, t) =>
      && passed.Address? && (Root(c.al, t) in c.params || Root(c.al, t) in place)
      && Locate(bound, passed.e) ==
           if Root(c.al, t) in c.params then InBuf(Root(c.al, t), Offset(c.al, t) * ElemSize(c, Root(c.al, t)))
           else InWs(place[Root(c.al, t)] + Offset(c.al, t) * ElemSize(c, Root(c.al, t)))
    case Scalar(_, _, v) => passed == Number(v)
    case _ => passed == NullPtr
  }

  lemma CallsPass(c: Context, place: map<Name, int>, bound: map<string, (Name, int)>, o: BoundOp, call: Call)
    requires BoundTo(c, bound) && IsCallOf(c, place, o, call)
    ensures call.op == o.name && |call.args| == |o.args| && forall k :: 0 <= k < |o.args| ==> Passes(c, place, bound, o.args[k], call.args[k])
  {
    hide Root, Offset, ExprOf, Locate, BoundTo;
    forall k | 0 <= k < |o.args|
      ensures Passes(c, place, bound, o.args[k], call.args[k])
    {
      assert o.args[k] in o.args;
      if o.args[k].Ptr? {
        ExprDenotes(c, place, bound, o.args[k]);
      }
    }
  }
}
