/** The workspace planner of composite seeds (pipeline/composite_seed.py, plan).

    Stages run back to back; every tensor that is no parameter of the new op lives in one shared
    workspace, and its bytes are reused once it is dead. `Plan` is the allocator; the main
    theorem, SharedRunAgrees, says that running the stages over the shared workspace gives every
    stage the inputs, and every parameter buffer the contents, that private buffers would. */
module Planner {
  import opened Ir
  import opened Shapes
  import opened TextOrder

  const ALIGN := 256
  const FOREVER := 0x4000_0000

  datatype Dir = In | Out | Scratch

  datatype Arg =
    | Ptr(dir: Dir, param: string, t: Name)
    | Weight
    | Null
    | Scalar(param: string, isInt: bool, value: int)

  /** An op of the base graph with its bound arguments. */
  datatype BoundOp = BoundOp(name: string, kind: string, args: seq<Arg>)

  type Aliases = map<Name, (Name, int)>
  type Tensors = map<Name, TensorMeta>

  datatype Refusal = NothingAbsorbed | WeightInside | Unverified | BadConstant | ReadsUnproduced | OverCap

  // ---------------------------------------------------------------- views

  /** Follows views to the tensor that owns the memory, adding up element offsets. */
  function ResolveFrom(al: Aliases, t: Name, off: int, seen: set<Name>): (Name, int)
    decreases al.Keys - seen
  {
    if t in al && t !in seen then ResolveFrom(al, al[t].0, off + al[t].1, seen + {t}) else (t, off)
  }

  function Root(al: Aliases, t: Name): Name { ResolveFrom(al, t, 0, {}).0 }

  function Offset(al: Aliases, t: Name): int { ResolveFrom(al, t, 0, {}).1 }

  method Resolve(al: Aliases, t0: Name) returns (t: Name, off: int)
    ensures t == Root(al, t0) && off == Offset(al, t0)
  {
    t, off := t0, 0;
    var seen: set<Name> := {};
    while t in al && t !in seen
      invariant ResolveFrom(al, t, off, seen) == ResolveFrom(al, t0, 0, {})
      decreases al.Keys - seen
    {
      seen := seen + {t};
      off := off + al[t].1;
      t := al[t].0;
    }
  }

  // ---------------------------------------------------------------- sizes

  function ElemBytes(dtype: string): nat {
    match dtype
    case "f16" => 2
    case "bf16" => 2
    case "f32" => 4
    case "i32" => 4
    case "i64" => 8
    case "u8" => 1
    case "bool" => 1
    case "i8" => 1
    case _ => 4
  }

  function MetaOf(tensors: Tensors, r: Name): TensorMeta {
    if r in tensors then tensors[r] else TensorMeta([], "f32", None, "")
  }

  function Bytes(tensors: Tensors, r: Name): int {
    Numel(MetaOf(tensors, r).shape) * ElemBytes(MetaOf(tensors, r).dtype)
  }

  function RoundUp(n: int): int { (n + ALIGN - 1) / ALIGN * ALIGN }

  function Size(tensors: Tensors, r: Name): int { RoundUp(Bytes(tensors, r)) }

  predicate SaneShapes(tensors: Tensors) {
    forall r :: r in tensors ==> forall i :: 0 <= i < |tensors[r].shape| ==> tensors[r].shape[i] >= 0
  }

  lemma {:induction false} NumelNat(shape: seq<int>)
    requires forall i :: 0 <= i < |shape| ==> shape[i] >= 0
    ensures Numel(shape) >= 0
  {
    if shape != [] {
      NumelNat(shape[..|shape| - 1]);
    }
  }

  lemma SizeFacts(tensors: Tensors, r: Name)
    requires SaneShapes(tensors)
    ensures Bytes(tensors, r) >= 0 && Size(tensors, r) >= Bytes(tensors, r) && Size(tensors, r) % ALIGN == 0
  {
    NumelNat(MetaOf(tensors, r).shape);
    var n := Bytes(tensors, r);
    assert n >= 0;
    assert RoundUp(n) >= n && RoundUp(n) % ALIGN == 0;
  }

  // ---------------------------------------------------------------- names in sorted order

  predicate Before(first: map<Name, int>, a: Name, b: Name)
    requires a in first && b in first
  {
    first[a] < first[b] || (first[a] == first[b] && StrLe(a, b))
  }

  lemma BeforeTotal(first: map<Name, int>, a: Name, b: Name)
    requires a in first && b in first
    ensures Before(first, a, b) || Before(first, b, a)
  {
    StrLeTotal(a, b);
  }

  lemma BeforeTransitive(first: map<Name, int>, a: Name, b: Name, c: Name)
    requires a in first && b in first && c in first
    requires Before(first, a, b) && Before(first, b, c)
    ensures Before(first, a, c)
  {
    if first[a] == first[b] == first[c] {
      StrLeTransitive(a, b, c);
    }
  }

  method Earliest(first: map<Name, int>, todo: set<Name>) returns (m: Name)
    requires todo != {} && todo <= first.Keys
    ensures m in todo && forall x :: x in todo ==> Before(first, m, x)
  {
    m :| m in todo;
    BeforeTotal(first, m, m);
    var rest := todo - {m};
    while rest != {}
      invariant m in todo && rest <= todo
      invariant forall x :: x in todo && x !in rest ==> Before(first, m, x)
    {
      var x :| x in rest;
      if !Before(first, m, x) {
        BeforeTotal(first, m, x);
        forall y | y in todo && y !in rest
          ensures Before(first, x, y)
        {
          BeforeTransitive(first, x, m, y);
        }
        BeforeTotal(first, x, x);
        m := x;
      }
      rest := rest - {x};
    }
  }

  /** The roots by (first use, name). */
  method SortRoots(first: map<Name, int>) returns (order: seq<Name>)
    ensures forall r :: r in order <==> r in first
    ensures forall i, j :: 0 <= i < j < |order| ==> order[i] != order[j] && Before(first, order[i], order[j])
  {
    order := [];
    var todo := first.Keys;
    while todo != {}
      invariant todo <= first.Keys
      invariant forall r :: r in order <==> r in first && r !in todo
      invariant forall i, x :: 0 <= i < |order| && x in todo ==> Before(first, order[i], x)
      invariant forall i, j :: 0 <= i < j < |order| ==> order[i] != order[j] && Before(first, order[i], order[j])
    {
      var m := Earliest(first, todo);
      order := order + [m];
      todo := todo - {m};
    }
  }

  // ---------------------------------------------------------------- first fit

  datatype Block = Block(off: int, size: int, root: Name)

  /** Memory ranges that do not share a byte. */
  predicate Apart(off1: int, size1: int, off2: int, size2: int) {
    off1 + size1 <= off2 || off2 + size2 <= off1
  }

  ghost predicate Fits(off: int, size: int, blocks: seq<Block>) {
    forall b :: b in blocks ==> Apart(off, size, b.off, b.size)
  }

  function InsertByOff(b: Block, s: seq<Block>): seq<Block> {
    if s == [] || b.off <= s[0].off then [b] + s else [s[0]] + InsertByOff(b, s[1..])
  }

  function SortByOff(s: seq<Block>): seq<Block> {
    if s == [] then [] else InsertByOff(s[0], SortByOff(s[1..]))
  }

  ghost predicate ByOff(s: seq<Block>) {
    forall i, j :: 0 <= i < j < |s| ==> s[i].off <= s[j].off
  }

  lemma {:induction false} InsertKeeps(b: Block, s: seq<Block>)
    requires ByOff(s)
    ensures ByOff(InsertByOff(b, s))
    ensures forall x :: x in InsertByOff(b, s) <==> x == b || x in s
  {
    if s != [] && !(b.off <= s[0].off) {
      InsertKeeps(b, s[1..]);
      var rest := InsertByOff(b, s[1..]);
      forall k | 0 <= k < |rest|
        ensures s[0].off <= rest[k].off
      {
        assert rest[k] in rest;
        if rest[k] != b {
          assert rest[k] in s[1..];
        }
      }
    }
  }

  lemma {:induction false} SortKeeps(s: seq<Block>)
    ensures ByOff(SortByOff(s))
    ensures forall x :: x in SortByOff(s) <==> x in s
  {
    if s != [] {
      SortKeeps(s[1..]);
      InsertKeeps(s[0], SortByOff(s[1..]));
    }
  }

  /** The scan of blocks sorted by offset: behind each block that is in the way. */
  function FitFrom(live: seq<Block>, size: int, off: int): int {
    if live == [] || off + size <= live[0].off then off
    else FitFrom(live[1..], size, if off < live[0].off + live[0].size then live[0].off + live[0].size else off)
  }

  lemma FitStep(live: seq<Block>, i: nat, size: int, off: int)
    requires i <= |live|
    ensures i == |live| ==> FitFrom(live[i..], size, off) == off
    ensures i < |live| && off + size <= live[i].off ==> FitFrom(live[i..], size, off) == off
    ensures i < |live| && !(off + size <= live[i].off) ==>
      FitFrom(live[i..], size, off) == FitFrom(live[i + 1..], size, if off < live[i].off + live[i].size then live[i].off + live[i].size else off)
  {
    if i < |live| {
      assert live[i..][0] == live[i] && live[i..][1..] == live[i + 1..];
    }
  }

  lemma FitAll(live: seq<Block>, size: int, off: int)
    ensures FitFrom(live[0..], size, off) == FitFrom(live, size, off)
  {
    assert live[0..] == live;
  }

  lemma EarlierEnough(live: seq<Block>, blocks: seq<Block>, i: nat, size: int, off: int)
    requires ByOff(live) && (forall b :: b in live <==> b in blocks) && i < |live| && off + size <= live[i].off
    requires forall j :: 0 <= j < i ==> live[j].off + live[j].size <= off
    ensures Fits(off, size, blocks)
  {
    forall b | b in blocks
      ensures Apart(off, size, b.off, b.size)
    {
      var j :| 0 <= j < |live| && live[j] == b;
      assert j >= i ==> live[i].off <= live[j].off;
    }
  }

  lemma BehindAll(live: seq<Block>, blocks: seq<Block>, size: int, off: int)
    requires (forall b :: b in live <==> b in blocks) && forall j :: 0 <= j < |live| ==> live[j].off + live[j].size <= off
    ensures Fits(off, size, blocks)
  {
    forall b | b in blocks
      ensures Apart(off, size, b.off, b.size)
    {
      var j :| 0 <= j < |live| && live[j] == b;
    }
  }

  lemma InTheWay(blocks: seq<Block>, b: Block, size: int, off: int)
    requires b in blocks && off + size > b.off && forall o :: 0 <= o && Fits(o, size, blocks) ==> off <= o
    ensures forall o :: 0 <= o && Fits(o, size, blocks) ==> b.off + b.size <= o
  {
    forall o | 0 <= o && Fits(o, size, blocks)
      ensures b.off + b.size <= o
    {
      assert Apart(o, size, b.off, b.size);
    }
  }

  /** The least offset at which a range of the given size is apart from all blocks. */
  method FirstFit(blocks: seq<Block>, size: int) returns (off: int)
    requires size >= 0 && forall b :: b in blocks ==> b.size >= 0 && b.off % ALIGN == 0 && b.size % ALIGN == 0
    ensures off >= 0 && Fits(off, size, blocks) && off % ALIGN == 0
    ensures forall o :: 0 <= o && Fits(o, size, blocks) ==> off <= o
    ensures off == FitFrom(SortByOff(blocks), size, 0)
  {
    hide FitFrom, SortByOff, ByOff, Fits;
    var live := SortByOff(blocks);
    SortKeeps(blocks);
    off := 0;
    FitAll(live, size, 0);
    for i := 0 to |live|
      invariant FitFrom(live[i..], size, off) == FitFrom(live, size, 0)
      invariant off >= 0 && off % ALIGN == 0
      invariant forall j :: 0 <= j < i ==> live[j].off + live[j].size <= off
      invariant forall o :: 0 <= o && Fits(o, size, blocks) ==> off <= o
    {
      var b := live[i];
      assert b in live;
      FitStep(live, i, size, off);
      if off + size <= b.off {
        EarlierEnough(live, blocks, i, size, off);
        return;
      }
      InTheWay(blocks, b, size, off);
      if off < b.off + b.size {
        off := b.off + b.size;
      }
    }
    FitStep(live, |live|, size, off);
    BehindAll(live, blocks, size, off);
  }

  // ---------------------------------------------------------------- liveness over the stages

  /** The absorbed kernel ops in base order; views are no stages. */
  function Stages(ops: seq<BoundOp>, absorbed: set<string>): seq<BoundOp> {
    if ops == [] then []
    else (if ops[0].name in absorbed && ops[0].kind != "view" then [ops[0]] else []) + Stages(ops[1..], absorbed)
  }

  /** The roots the new op's pointer parameters give access to: parameter name and element offset. */
  function ParamRoots(al: Aliases, tensors: Tensors, args: seq<Arg>): map<Name, (string, int)> {
    if args == [] then map[]
    else
      var m := ParamRoots(al, tensors, args[..|args| - 1]);
      var a := args[|args| - 1];
      if a.Ptr? && a.t in tensors && Root(al, a.t) !in m then m[Root(al, a.t) := (a.param, Offset(al, a.t))] else m
  }

  predicate IsConst(tensors: Tensors, r: Name) { MetaOf(tensors, r).const_ != "" }

  /** What the scan looks things up in. */
  datatype Context = Context(al: Aliases, tensors: Tensors, params: map<Name, (string, int)>, verified: set<string>)

  datatype Live = Live(first: map<Name, int>, last: map<Name, int>, consts: set<Name>)

  /** The arguments of all stages in the order the scan meets them, each with its stage number. */
  function Events(stages: seq<BoundOp>): seq<(nat, Arg)> {
    if stages == [] then []
    else Events(stages[..|stages| - 1]) + EventsOf(|stages| - 1, stages[|stages| - 1].args)
  }

  function EventsOf(i: nat, args: seq<Arg>): (r: seq<(nat, Arg)>)
    ensures |r| == |args| && forall k :: 0 <= k < |args| ==> r[k] == (i, args[k])
  {
    seq(|args|, k requires 0 <= k < |args| => (i, args[k]))
  }

  function Touch(c: Context, i: nat, a: Arg, l: Live): Result<Live, Refusal> {
    match a
    case Weight => Err(WeightInside)
    case Null => Ok(l)
    case Scalar(_, _, _) => Ok(l)
    case Ptr(dir, _, t) =>
      var r := Root(c.al, t);
      if r in c.params then Ok(l)
      else if IsConst(c.tensors, r) then
        if MetaOf(c.tensors, r).const_ !in c.verified then Err(Unverified)
        else if MetaOf(c.tensors, r).dtype != "f16" || |MetaOf(c.tensors, r).shape| < 2 then Err(BadConstant)
        else Ok(Live(l.first[r := -1], l.last[r := FOREVER], l.consts + {r}))
      else if dir == In && r !in l.first then Err(ReadsUnproduced)
      else Ok(Live(if r in l.first then l.first else l.first[r := i], l.last[r := i], l.consts))
  }

  /** What the scan of the given arguments finds: lifetimes, or the first reason to refuse. */
  function LiveOf(c: Context, es: seq<(nat, Arg)>): Result<Live, Refusal> {
    if es == [] then Ok(Live(map[], map[], {}))
    else
      var l := LiveOf(c, es[..|es| - 1]);
      if l.Err? then l else Touch(c, es[|es| - 1].0, es[|es| - 1].1, l.value)
  }

  lemma {:induction false} ErrorsStay(c: Context, es: seq<(nat, Arg)>, more: seq<(nat, Arg)>)
    requires LiveOf(c, es).Err?
    ensures LiveOf(c, es + more) == LiveOf(c, es)
    decreases |more|
  {
    if more == [] {
      assert es + more == es;
    } else {
      assert (es + more)[..|es + more| - 1] == es + more[..|more| - 1];
      ErrorsStay(c, es, more[..|more| - 1]);
    }
  }

  lemma {:induction false} EventsPrefix(stages: seq<BoundOp>, n: nat) returns (rest: seq<(nat, Arg)>)
    requires n <= |stages|
    ensures Events(stages) == Events(stages[..n]) + rest
    decreases |stages| - n
  {
    if n == |stages| {
      assert stages[..n] == stages;
      rest := [];
    } else {
      var tail := EventsPrefix(stages, n + 1);
      assert stages[..n + 1][..n] == stages[..n];
      rest := EventsOf(n, stages[n].args) + tail;
    }
  }

  method ScanArgs(c: Context, i: nat, args: seq<Arg>, ghost done: seq<(nat, Arg)>, l0: Live) returns (r: Result<Live, Refusal>)
    requires LiveOf(c, done) == Ok(l0)
    ensures r == LiveOf(c, done + EventsOf(i, args))
  {
    hide Touch;
    var l := l0;
    assert done + EventsOf(i, args[..0]) == done;
    for k := 0 to |args|
      invariant LiveOf(c, done + EventsOf(i, args[..k])) == Ok(l)
    {
      ghost var upto := done + EventsOf(i, args[..k + 1]);
      assert upto[..|upto| - 1] == done + EventsOf(i, args[..k]);
      r := Touch(c, i, args[k], l);
      if r.Err? {
        ghost var rest := EventsOf(i, args)[k + 1..];
        assert done + EventsOf(i, args) == upto + rest;
        ErrorsStay(c, upto, rest);
        return;
      }
      l := r.value;
    }
    assert args[..|args|] == args;
    r := Ok(l);
  }

  method Liveness(c: Context, stages: seq<BoundOp>) returns (r: Result<Live, Refusal>)
    ensures r == LiveOf(c, Events(stages))
  {
    var l := Live(map[], map[], {});
    for i := 0 to |stages|
      invariant LiveOf(c, Events(stages[..i])) == Ok(l)
    {
      assert stages[..i + 1][..i] == stages[..i];
      r := ScanArgs(c, i, stages[i].args, Events(stages[..i]), l);
      if r.Err? {
        ghost var tail := EventsPrefix(stages, i + 1);
        ErrorsStay(c, Events(stages[..i + 1]), tail);
        return;
      }
      l := r.value;
    }
    assert stages[..|stages|] == stages;
    r := Ok(l);
  }

  // ---------------------------------------------------------------- what lifetimes mean

  ghost predicate TouchesRoot(c: Context, a: Arg, r: Name) {
    a.Ptr? && Root(c.al, a.t) == r && r !in c.params
  }

  ghost predicate Within(l: Live, r: Name, i: int) {
    r in l.first && r in l.last && l.first[r] <= i <= l.last[r]
  }

  ghost predicate TouchedAt(c: Context, es: seq<(nat, Arg)>, r: Name, i: int) {
    exists k :: 0 <= k < |es| && es[k].0 == i && TouchesRoot(c, es[k].1, r)
  }

  /** Lifetimes cover every touch and no more: they begin and end at one, except for constants. */
  ghost predicate Recorded(c: Context, es: seq<(nat, Arg)>, l: Live) {
    && l.first.Keys == l.last.Keys
    && (forall k, r :: 0 <= k < |es| && TouchesRoot(c, es[k].1, r) ==> Within(l, r, es[k].0))
    && (forall r :: r in l.first ==> exists i :: TouchedAt(c, es, r, i))
    && (forall r :: r in l.consts <==> r in l.first && IsConst(c.tensors, r))
    && (forall r :: r in l.consts ==> l.first[r] == -1 && l.last[r] == FOREVER)
    && (forall r :: r in l.first && r !in l.consts ==> TouchedAt(c, es, r, l.first[r]) && TouchedAt(c, es, r, l.last[r]))
  }

  ghost predicate InSequence(es: seq<(nat, Arg)>) {
    && (forall j, k :: 0 <= j < k < |es| ==> es[j].0 <= es[k].0)
    && (forall k :: 0 <= k < |es| ==> es[k].0 < FOREVER)
  }

  lemma TouchedMore(c: Context, es: seq<(nat, Arg)>, e: (nat, Arg), r: Name, i: int)
    ensures TouchedAt(c, es + [e], r, i) <==> TouchedAt(c, es, r, i) || (e.0 == i && TouchesRoot(c, e.1, r))
  {
    var more := es + [e];
    if TouchedAt(c, es, r, i) {
      var k :| 0 <= k < |es| && es[k].0 == i && TouchesRoot(c, es[k].1, r);
      assert more[k] == es[k];
    }
    assert more[|es|] == e;
  }

  /** The entry of one root after a touch at stage i. */
  ghost predicate Updated(c: Context, l0: Live, l: Live, r: Name, i: int) {
    && l.first.Keys == l0.first.Keys + {r} && l.last.Keys == l0.last.Keys + {r}
    && (forall x :: x in l0.first && x != r ==> l.first[x] == l0.first[x])
    && (forall x :: x in l0.last && x != r ==> l.last[x] == l0.last[x])
    && l.consts == l0.consts + (if IsConst(c.tensors, r) then {r} else {})
    && (if IsConst(c.tensors, r) then l.first[r] == -1 && l.last[r] == FOREVER
        else l.last[r] == i && l.first[r] == if r in l0.first then l0.first[r] else i)
  }

  lemma TouchUpdates(c: Context, e: (nat, Arg), l0: Live, l: Live)
    requires Touch(c, e.0, e.1, l0) == Ok(l)
    ensures (forall r :: !TouchesRoot(c, e.1, r)) ==> l == l0
    ensures forall r :: TouchesRoot(c, e.1, r) ==> Updated(c, l0, l, r, e.0)
  {
    if e.1.Ptr? {
      var r := Root(c.al, e.1.t);
      assert TouchesRoot(c, e.1, r) <==> r !in c.params;
    }
  }

  /** Every touch up to the new one lies in its lifetime. */
  lemma TouchCovers(c: Context, es: seq<(nat, Arg)>, e: (nat, Arg), l0: Live, l: Live, r: Name)
    requires Recorded(c, es, l0) && InSequence(es + [e])
    requires TouchesRoot(c, e.1, r) && Updated(c, l0, l, r, e.0)
    ensures forall k, x :: 0 <= k < |es + [e]| && TouchesRoot(c, (es + [e])[k].1, x) ==> Within(l, x, (es + [e])[k].0)
  {
    hide TouchesRoot;
    var more := es + [e];
    forall k, x | 0 <= k < |more| && TouchesRoot(c, more[k].1, x)
      ensures Within(l, x, more[k].0)
    {
      assert more[|es|] == e;
      assert more[k].0 <= e.0 && 0 <= more[k].0 < FOREVER;
      if k < |es| {
        assert more[k] == es[k] && Within(l0, x, es[k].0);
      } else {
        OneRoot(c, e.1, x, r);
        FirstBefore(c, es, e, l0, r);
      }
    }
  }

  lemma OneRoot(c: Context, a: Arg, x: Name, y: Name)
    requires TouchesRoot(c, a, x) && TouchesRoot(c, a, y)
    ensures x == y
  {
  }

  lemma FirstBefore(c: Context, es: seq<(nat, Arg)>, e: (nat, Arg), l0: Live, r: Name)
    requires Recorded(c, es, l0) && InSequence(es + [e])
    ensures r in l0.first && r !in l0.consts ==> l0.first[r] <= e.0
  {
    var more := es + [e];
    assert more[|es|] == e;
    if r in l0.first && r !in l0.consts {
      assert TouchedAt(c, es, r, l0.first[r]);
      var j :| 0 <= j < |es| && es[j].0 == l0.first[r] && TouchesRoot(c, es[j].1, r);
      assert more[j] == es[j];
    }
  }

  lemma TouchEnds(c: Context, es: seq<(nat, Arg)>, e: (nat, Arg), l0: Live, l: Live, r: Name)
    requires Recorded(c, es, l0)
    requires TouchesRoot(c, e.1, r) && Updated(c, l0, l, r, e.0)
    ensures forall x :: x in l.first ==> exists i :: TouchedAt(c, es + [e], x, i)
    ensures forall x :: x in l.first && x !in l.consts ==>
      TouchedAt(c, es + [e], x, l.first[x]) && TouchedAt(c, es + [e], x, l.last[x])
  {
    hide TouchedAt;
    forall x, i
      ensures TouchedAt(c, es + [e], x, i) <==> TouchedAt(c, es, x, i) || (e.0 == i && TouchesRoot(c, e.1, x))
    {
      TouchedMore(c, es, e, x, i);
    }
    forall x | x in l.first
      ensures exists i :: TouchedAt(c, es + [e], x, i)
    {
      if x in l0.first {
        var i :| TouchedAt(c, es, x, i);
        assert TouchedAt(c, es + [e], x, i);
      } else {
        assert TouchedAt(c, es + [e], x, e.0);
      }
    }
  }

  lemma IdleRecords(c: Context, es: seq<(nat, Arg)>, e: (nat, Arg), l: Live)
    requires Recorded(c, es, l) && forall r :: !TouchesRoot(c, e.1, r)
    ensures Recorded(c, es + [e], l)
  {
    hide TouchedAt, TouchesRoot;
    var more := es + [e];
    forall x, i
      ensures TouchedAt(c, more, x, i) <==> TouchedAt(c, es, x, i)
    {
      TouchedMore(c, es, e, x, i);
    }
    forall k, r | 0 <= k < |more| && TouchesRoot(c, more[k].1, r)
      ensures Within(l, r, more[k].0)
    {
      assert more[|es|] == e && (k < |es| ==> more[k] == es[k]);
    }
    forall x | x in l.first
      ensures exists i :: TouchedAt(c, more, x, i)
    {
      var i :| TouchedAt(c, es, x, i);
      assert TouchedAt(c, more, x, i);
    }
  }

  lemma TouchRecords(c: Context, es: seq<(nat, Arg)>, e: (nat, Arg), l0: Live, l: Live)
    requires Recorded(c, es, l0) && InSequence(es + [e])
    requires Touch(c, e.0, e.1, l0) == Ok(l)
    ensures Recorded(c, es + [e], l)
  {
    hide *;
    TouchUpdates(c, e, l0, l);
    if r :| TouchesRoot(c, e.1, r) {
      TouchCovers(c, es, e, l0, l, r);
      TouchEnds(c, es, e, l0, l, r);
      UpdatedRecords(c, es, e, l0, l, r);
    } else {
      IdleRecords(c, es, e, l);
    }
  }

  lemma UpdatedRecords(c: Context, es: seq<(nat, Arg)>, e: (nat, Arg), l0: Live, l: Live, r: Name)
    requires Recorded(c, es, l0) && Updated(c, l0, l, r, e.0)
    requires forall k, x :: 0 <= k < |es + [e]| && TouchesRoot(c, (es + [e])[k].1, x) ==> Within(l, x, (es + [e])[k].0)
    requires forall x :: x in l.first ==> exists i :: TouchedAt(c, es + [e], x, i)
    requires forall x :: x in l.first && x !in l.consts ==>
      TouchedAt(c, es + [e], x, l.first[x]) && TouchedAt(c, es + [e], x, l.last[x])
    ensures Recorded(c, es + [e], l)
  {
    hide TouchedAt, TouchesRoot, Within;
  }

  lemma {:induction false} ScanRecords(c: Context, es: seq<(nat, Arg)>)
    requires InSequence(es) && LiveOf(c, es).Ok?
    ensures Recorded(c, es, LiveOf(c, es).value)
  {
    if es != [] {
      var init := es[..|es| - 1];
      assert es == init + [es[|es| - 1]];
      ScanRecords(c, init);
      TouchRecords(c, init, es[|es| - 1], LiveOf(c, init).value, LiveOf(c, es).value);
    }
  }

  lemma {:induction false} EventsInSequence(stages: seq<BoundOp>)
    requires |stages| < FOREVER
    ensures InSequence(Events(stages))
    ensures forall e :: e in Events(stages) ==> e.0 < |stages| && e.1 in stages[e.0].args
  {
    if stages != [] {
      var n := |stages| - 1;
      var before, last := Events(stages[..n]), EventsOf(n, stages[n].args);
      EventsInSequence(stages[..n]);
      assert Events(stages) == before + last;
      assert forall e :: e in before ==> e.0 < n && e.1 in stages[..n][e.0].args;
      assert forall e :: e in last ==> e.0 == n && e.1 in stages[n].args;
      hide Events;
    }
  }

  lemma {:induction false} ArgsAreEvents(stages: seq<BoundOp>, i: nat, k: nat) returns (j: nat)
    requires i < |stages| && k < |stages[i].args|
    ensures j < |Events(stages)| && Events(stages)[j] == (i, stages[i].args[k])
    decreases |stages|
  {
    if i == |stages| - 1 {
      j := |Events(stages[..i])| + k;
    } else {
      j := ArgsAreEvents(stages[..|stages| - 1], i, k);
    }
  }

  /** Every touch of a stage falls into the lifetime of the root it touches. */
  lemma StagesWithinLifetimes(c: Context, stages: seq<BoundOp>, i: nat, k: nat)
    requires |stages| < FOREVER && LiveOf(c, Events(stages)).Ok?
    requires i < |stages| && k < |stages[i].args| && stages[i].args[k].Ptr?
    requires Root(c.al, stages[i].args[k].t) !in c.params
    ensures Within(LiveOf(c, Events(stages)).value, Root(c.al, stages[i].args[k].t), i)
  {
    EventsInSequence(stages);
    ScanRecords(c, Events(stages));
    var j := ArgsAreEvents(stages, i, k);
    assert TouchesRoot(c, Events(stages)[j].1, Root(c.al, stages[i].args[k].t));
  }

  // ---------------------------------------------------------------- placement

  /** Two roots are live at a common time. */
  predicate Overlap(l: Live, r: Name, s: Name)
    requires r in l.first && r in l.last && s in l.first && s in l.last
  {
    !(l.last[r] < l.first[s] || l.last[s] < l.first[r])
  }

  /** Roots with a common time get disjoint, aligned ranges inside the workspace. */
  ghost predicate Placed(tensors: Tensors, l: Live, place: map<Name, int>, ws: int) {
    && place.Keys == l.first.Keys == l.last.Keys
    && (forall r :: r in place ==> 0 <= place[r] && place[r] % ALIGN == 0 && place[r] + Size(tensors, r) <= ws)
    && (forall r, s :: r in place && s in place && r != s && Overlap(l, r, s) ==>
          Apart(place[r], Size(tensors, r), place[s], Size(tensors, s)))
  }

  /** The workspace ends where some root ends. */
  ghost predicate Tight(tensors: Tensors, place: map<Name, int>, ws: int) {
    exists r :: r in place && ws == place[r] + Size(tensors, r)
  }

  ghost predicate Known(l: Live, blocks: seq<Block>) {
    l.first.Keys == l.last.Keys && forall b :: b in blocks ==> b.root in l.first
  }

  /** The blocks that are live at a common time with `r`. */
  function LiveOnes(l: Live, blocks: seq<Block>, r: Name): (live: seq<Block>)
    requires Known(l, blocks) && r in l.first
    ensures forall b :: b in live <==> b in blocks && Overlap(l, b.root, r)
  {
    if blocks == [] then []
    else
      var b := blocks[|blocks| - 1];
      assert blocks == blocks[..|blocks| - 1] + [b];
      LiveOnes(l, blocks[..|blocks| - 1], r) + if Overlap(l, b.root, r) then [b] else []
  }

  method LiveBlocks(l: Live, blocks: seq<Block>, r: Name) returns (live: seq<Block>)
    requires Known(l, blocks) && r in l.first
    ensures live == LiveOnes(l, blocks, r)
  {
    live := [];
    for i := 0 to |blocks|
      invariant Known(l, blocks[..i]) && live == LiveOnes(l, blocks[..i], r)
    {
      assert blocks[..i + 1][..i] == blocks[..i];
      if !(l.last[blocks[i].root] < l.first[r] || l.last[r] < l.first[blocks[i].root]) {
        live := live + [blocks[i]];
      }
    }
    assert blocks[..|blocks|] == blocks;
  }

  ghost predicate BlocksPlace(tensors: Tensors, blocks: seq<Block>, place: map<Name, int>) {
    forall b :: b in blocks <==> b.root in place && b.off == place[b.root] && b.size == Size(tensors, b.root)
  }

  /** The placement of some of the roots is sound, and ws is exactly as much as it needs. */
  ghost predicate PlacedSoFar(tensors: Tensors, l: Live, place: map<Name, int>, ws: int)
    requires l.first.Keys == l.last.Keys
  {
    && place.Keys <= l.first.Keys
    && (forall r :: r in place ==> 0 <= place[r] && place[r] % ALIGN == 0 && place[r] + Size(tensors, r) <= ws)
    && (forall r, s :: r in place && s in place && r != s && Overlap(l, r, s) ==>
          Apart(place[r], Size(tensors, r), place[s], Size(tensors, s)))
    && ws >= 0 && (ws > 0 ==> Tight(tensors, place, ws))
  }

  /** The roots by first use and name. */
  ghost predicate IsOrder(first: map<Name, int>, order: seq<Name>) {
    && (forall r :: r in order <==> r in first)
    && forall i, j :: 0 <= i < j < |order| ==> order[i] != order[j] && Before(first, order[i], order[j])
  }

  /** There is one such order. */
  lemma {:induction false} OrderIsUnique(first: map<Name, int>, a: seq<Name>, b: seq<Name>, n: nat)
    requires IsOrder(first, a) && IsOrder(first, b) && n <= |a|
    ensures n <= |b| && a[..n] == b[..n]
  {
    if n > 0 {
      OrderIsUnique(first, a, b, n - 1);
      NextInOrder(first, a, b, n - 1);
      assert a[..n] == a[..n - 1] + [a[n - 1]] && b[..n] == b[..n - 1] + [b[n - 1]];
    }
  }

  lemma NextInOrder(first: map<Name, int>, a: seq<Name>, b: seq<Name>, k: nat)
    requires IsOrder(first, a) && IsOrder(first, b) && k < |a| && k <= |b| && a[..k] == b[..k]
    ensures k < |b| && a[k] == b[k]
  {
    assert a[k] in a;
    var j :| 0 <= j < |b| && b[j] == a[k];
    assert forall i :: 0 <= i < k ==> b[..k][i] == a[..k][i];
    assert b[k] in b;
    var i :| 0 <= i < |a| && a[i] == b[k];
    if j != k {
      assert Before(first, b[k], b[j]) && Before(first, a[k], a[i]);
      StrLeAntisymmetric(a[k], b[k]);
    }
  }

  datatype Layout = Layout(place: map<Name, int>, blocks: seq<Block>, ws: int)

  /** First fit: the first n roots of the order, each at the first offset free for its lifetime. */
  function FirstFitLayout(tensors: Tensors, l: Live, order: seq<Name>, n: nat): (s: Layout)
    requires n <= |order| && l.first.Keys == l.last.Keys && forall r :: r in order ==> r in l.first
    ensures Known(l, s.blocks)
  {
    if n == 0 then Layout(map[], [], 0)
    else
      var s, r := FirstFitLayout(tensors, l, order, n - 1), order[n - 1];
      var size := Size(tensors, r);
      var off := FitFrom(SortByOff(LiveOnes(l, s.blocks, r)), size, 0);
      Layout(s.place[r := off], s.blocks + [Block(off, size, r)], if s.ws < off + size then off + size else s.ws)
  }

  /** The placement that first fit finds, and the workspace it needs. */
  ghost predicate FirstFitIs(tensors: Tensors, l: Live, place: map<Name, int>, ws: int) {
    l.first.Keys == l.last.Keys &&
    exists order :: IsOrder(l.first, order) && FitsInOrder(tensors, l, order, place, ws)
  }

  ghost predicate FitsInOrder(tensors: Tensors, l: Live, order: seq<Name>, place: map<Name, int>, ws: int)
    requires l.first.Keys == l.last.Keys && IsOrder(l.first, order)
  {
    var s := FirstFitLayout(tensors, l, order, |order|); place == s.place && ws == s.ws
  }

  /** There is one such placement. */
  lemma FirstFitIsUnique(tensors: Tensors, l: Live, p1: map<Name, int>, w1: int, p2: map<Name, int>, w2: int)
    requires FirstFitIs(tensors, l, p1, w1) && FirstFitIs(tensors, l, p2, w2)
    ensures p1 == p2 && w1 == w2
  {
    var a :| IsOrder(l.first, a) && FitsInOrder(tensors, l, a, p1, w1);
    var b :| IsOrder(l.first, b) && FitsInOrder(tensors, l, b, p2, w2);
    hide IsOrder, FirstFitLayout;
    OneOrder(l.first, a, b);
  }

  lemma OneOrder(first: map<Name, int>, a: seq<Name>, b: seq<Name>)
    requires IsOrder(first, a) && IsOrder(first, b)
    ensures a == b
  {
    hide IsOrder;
    OrderIsUnique(first, a, b, |a|);
    OrderIsUnique(first, b, a, |b|);
    assert a[..|a|] == a && b[..|b|] == b;
  }

  lemma BlocksAreSane(tensors: Tensors, l: Live, place: map<Name, int>, ws: int, blocks: seq<Block>)
    requires SaneShapes(tensors) && l.first.Keys == l.last.Keys
    requires PlacedSoFar(tensors, l, place, ws) && BlocksPlace(tensors, blocks, place)
    ensures forall b :: b in blocks ==> b.size >= 0 && b.off % ALIGN == 0 && b.size % ALIGN == 0 && b.root in l.first
  {
    forall b | b in blocks
      ensures b.size >= 0 && b.off % ALIGN == 0 && b.size % ALIGN == 0
    {
      SizeFacts(tensors, b.root);
    }
  }

  lemma PlaceOne(tensors: Tensors, l: Live, place: map<Name, int>, ws: int, blocks: seq<Block>, live: seq<Block>, r: Name, off: int)
    requires l.first.Keys == l.last.Keys && r in l.first && r !in place
    requires PlacedSoFar(tensors, l, place, ws) && BlocksPlace(tensors, blocks, place)
    requires Known(l, blocks) && forall b :: b in live <==> b in blocks && Overlap(l, b.root, r)
    requires off >= 0 && off % ALIGN == 0 && Size(tensors, r) >= 0 && Fits(off, Size(tensors, r), live)
    ensures var end := off + Size(tensors, r);
      PlacedSoFar(tensors, l, place[r := off], if ws < end then end else ws)
    ensures BlocksPlace(tensors, blocks + [Block(off, Size(tensors, r), r)], place[r := off])
  {
    hide Size;
    forall s | s in place && Overlap(l, r, s)
      ensures Apart(off, Size(tensors, r), place[s], Size(tensors, s))
    {
      var b := Block(place[s], Size(tensors, s), s);
      assert b in live;
    }
    var end := off + Size(tensors, r);
    if ws < end {
      assert place[r := off][r] + Size(tensors, r) == end;
    } else if ws > 0 {
      var x :| x in place && ws == place[x] + Size(tensors, x);
      assert place[r := off][x] == place[x];
    }
  }

  /** Linear scan: each root in order of first use gets the first offset free for its lifetime. */
  method Place(tensors: Tensors, l: Live) returns (place: map<Name, int>, ws: int)
    requires SaneShapes(tensors) && l.first.Keys == l.last.Keys
    ensures FirstFitIs(tensors, l, place, ws)
    ensures Placed(tensors, l, place, ws)
    ensures ws >= 0 && (ws > 0 ==> Tight(tensors, place, ws))
  {
    hide *;
    var order := SortRoots(l.first);
    place, ws := map[], 0;
    var blocks: seq<Block> := [];
    PlacedNone(tensors, l);
    LayoutNone(tensors, l, order);
    for n := 0 to |order|
      invariant place.Keys == set r | r in order[..n]
      invariant FirstFitLayout(tensors, l, order, n) == Layout(place, blocks, ws)
      invariant BlocksPlace(tensors, blocks, place)
      invariant PlacedSoFar(tensors, l, place, ws)
    {
      var r := order[n];
      assert r in order && order[..n + 1] == order[..n] + [r];
      assert r !in place;
      BlocksAreSane(tensors, l, place, ws, blocks);
      SizeFacts(tensors, r);
      KnownBlocks(l, blocks);
      var live := LiveBlocks(l, blocks, r);
      var off := FirstFit(live, Size(tensors, r));
      LayoutStep(tensors, l, order, n);
      PlaceOne(tensors, l, place, ws, blocks, live, r, off);
      place := place[r := off];
      blocks := blocks + [Block(off, Size(tensors, r), r)];
      if ws < off + Size(tensors, r) { ws := off + Size(tensors, r); }
    }
    assert order[..|order|] == order;
    PlacedAll(tensors, l, place, ws);
    LayoutIsFirstFit(tensors, l, order, place, blocks, ws);
  }

  lemma KnownBlocks(l: Live, blocks: seq<Block>)
    requires l.first.Keys == l.last.Keys && forall b :: b in blocks ==> b.root in l.first
    ensures Known(l, blocks)
  {
  }

  lemma LayoutNone(tensors: Tensors, l: Live, order: seq<Name>)
    requires l.first.Keys == l.last.Keys && forall r :: r in order ==> r in l.first
    ensures FirstFitLayout(tensors, l, order, 0) == Layout(map[], [], 0)
  {
  }

  lemma LayoutStep(tensors: Tensors, l: Live, order: seq<Name>, n: nat)
    requires n < |order| && l.first.Keys == l.last.Keys && forall r :: r in order ==> r in l.first
    ensures var s, r := FirstFitLayout(tensors, l, order, n), order[n]; var size := Size(tensors, r);
      var off := FitFrom(SortByOff(LiveOnes(l, s.blocks, r)), size, 0);
      FirstFitLayout(tensors, l, order, n + 1) == Layout(s.place[r := off], s.blocks + [Block(off, size, r)], if s.ws < off + size then off + size else s.ws)
  {
    hide SortByOff, FitFrom, LiveOnes, Size;
  }

  lemma LayoutIsFirstFit(tensors: Tensors, l: Live, order: seq<Name>, place: map<Name, int>, blocks: seq<Block>, ws: int)
    requires l.first.Keys == l.last.Keys && (forall r :: r in order <==> r in l.first)
    requires forall i, j :: 0 <= i < j < |order| ==> order[i] != order[j] && Before(l.first, order[i], order[j])
    requires FirstFitLayout(tensors, l, order, |order|) == Layout(place, blocks, ws)
    ensures FirstFitIs(tensors, l, place, ws)
  {
    hide FirstFitLayout, Before;
    assert IsOrder(l.first, order) && FitsInOrder(tensors, l, order, place, ws);
  }

  lemma PlacedNone(tensors: Tensors, l: Live)
    requires l.first.Keys == l.last.Keys
    ensures PlacedSoFar(tensors, l, map[], 0) && BlocksPlace(tensors, [], map[])
  {
  }

  lemma PlacedAll(tensors: Tensors, l: Live, place: map<Name, int>, ws: int)
    requires l.first.Keys == l.last.Keys == place.Keys && PlacedSoFar(tensors, l, place, ws)
    ensures Placed(tensors, l, place, ws)
    ensures ws >= 0 && (ws > 0 ==> Tight(tensors, place, ws))
  {
  }

  // ---------------------------------------------------------------- the plan

  /** A pointer in the emitted call: into the workspace, or relative to a parameter. */
  datatype Expr = Ws(offset: int) | Param(name: string, delta: int)

  datatype CallArg = Address(e: Expr) | NullPtr | Number(value: int)

  datatype Call = Call(op: string, args: seq<CallArg>)

  datatype Plan = Plan(
    calls: seq<Call>,
    wsBytes: int,
    place: map<Name, int>,
    fills: map<Name, (int, int)>,       // constant -> (offset, element count)
    guard: seq<(string, int)>)

  function ElemSize(c: Context, r: Name): nat { ElemBytes(MetaOf(c.tensors, r).dtype) }

  function ExprOf(c: Context, place: map<Name, int>, t: Name): Expr
    requires Root(c.al, t) in c.params || Root(c.al, t) in place
  {
    var r, off, es := Root(c.al, t), Offset(c.al, t), ElemSize(c, Root(c.al, t));
    if r in c.params then Param(c.params[r].0, (off - c.params[r].1) * es) else Ws(place[r] + off * es)
  }

  ghost predicate Reachable(c: Context, place: map<Name, int>, args: seq<Arg>) {
    forall a :: a in args && a.Ptr? ==> Root(c.al, a.t) in c.params || Root(c.al, a.t) in place
  }

  function CallArgs(c: Context, place: map<Name, int>, args: seq<Arg>): seq<CallArg>
    requires Reachable(c, place, args)
  {
    seq(|args|, k requires 0 <= k < |args| =>
      assert args[k] in args;
      match args[k]
      case Ptr(_, _, t) => Address(ExprOf(c, place, t))
      case Null => NullPtr
      case Scalar(_, _, v) => Number(v)
      case Weight => NullPtr)
  }

  function Guard(args: seq<Arg>): seq<(string, int)> {
    if args == [] then []
    else (if args[0].Scalar? && args[0].isInt then [(args[0].param, args[0].value)] else []) + Guard(args[1..])
  }

  ghost predicate IsCallOf(c: Context, place: map<Name, int>, s: BoundOp, call: Call) {
    Reachable(c, place, s.args) && call == Call(s.name, CallArgs(c, place, s.args))
  }

  method EmitCalls(c: Context, place: map<Name, int>, stages: seq<BoundOp>) returns (calls: seq<Call>)
    requires AllReachable(c, place, stages)
    ensures |calls| == |stages| && forall i :: 0 <= i < |stages| ==> IsCallOf(c, place, stages[i], calls[i])
  {
    calls := [];
    for i := 0 to |stages|
      invariant |calls| == i && forall j :: 0 <= j < i ==> IsCallOf(c, place, stages[j], calls[j])
    {
      calls := calls + [Call(stages[i].name, CallArgs(c, place, stages[i].args))];
    }
  }

  ghost predicate IsPlan(c: Context, stages: seq<BoundOp>, newArgs: seq<Arg>, cap: int, p: Plan) {
    && LiveOf(c, Events(stages)).Ok?
    && Placed(c.tensors, LiveOf(c, Events(stages)).value, p.place, p.wsBytes)
    && FirstFitIs(c.tensors, LiveOf(c, Events(stages)).value, p.place, p.wsBytes)
    && 0 <= p.wsBytes <= cap
    && |p.calls| == |stages|
    && (forall i :: 0 <= i < |stages| ==> IsCallOf(c, p.place, stages[i], p.calls[i]))
    && p.fills.Keys == LiveOf(c, Events(stages)).value.consts
    && (forall r :: r in p.fills ==> r in p.place && p.fills[r] == (p.place[r], Numel(MetaOf(c.tensors, r).shape)))
    && p.guard == Guard(newArgs)
  }

  method MakePlan(ops: seq<BoundOp>, tensors: Tensors, al: Aliases, absorbed: set<string>, newArgs: seq<Arg>,
                  verified: set<string>, cap: int)
    returns (r: Result<Plan, Refusal>)
    requires SaneShapes(tensors) && |ops| < FOREVER && cap >= 0
    ensures Planned(Context(al, tensors, ParamRoots(al, tensors, newArgs), verified), Stages(ops, absorbed), newArgs, cap, r)
    ensures r.Ok? ==> CallsTheAbsorbed(Context(al, tensors, ParamRoots(al, tensors, newArgs), verified), ops, absorbed, r.value)
    ensures r == Err(NothingAbsorbed) <==> forall i :: 0 <= i < |ops| ==> !IsStage(ops[i], absorbed)
  {
    hide *;
    var stages := Stages(ops, absorbed);
    var c := Context(al, tensors, ParamRoots(al, tensors, newArgs), verified);
    StagesAreFew(ops, absorbed);
    NoStagesIff(ops, absorbed);
    if stages == [] {
      r := Err(NothingAbsorbed);
      PlanRefused(c, stages, newArgs, cap, r);
      return;
    }
    var live := Liveness(c, stages);
    LiveErrors(c, Events(stages));
    if live.Err? {
      r := Err(live.error);
      PlanRefused(c, stages, newArgs, cap, r);
      return;
    }
    LifetimesAreRecorded(c, stages);
    var place, ws := Place(tensors, live.value);
    if ws > cap {
      r := Err(OverCap);
      PlanOverCap(c, stages, newArgs, cap, place, ws);
      return;
    }
    StagesReachable(c, stages, place, ws);
    var calls := EmitCalls(c, place, stages);
    var fills := map x | x in live.value.consts :: (place[x], Numel(MetaOf(tensors, x).shape));
    r := Ok(Plan(calls, ws, place, fills, Guard(newArgs)));
    PlanMade(c, stages, newArgs, cap, live.value, r.value);
    PlanCallsTheAbsorbed(c, ops, absorbed, r.value);
  }

  /** A kernel op that the new op stands for. */
  predicate IsStage(o: BoundOp, absorbed: set<string>) { o.name in absorbed && o.kind != "view" }

  /** `at` are the positions of the absorbed kernel ops from `n` on, in base order. */
  ghost predicate Picks(ops: seq<BoundOp>, absorbed: set<string>, n: nat, at: seq<nat>) {
    && (forall j, k :: 0 <= j < k < |at| ==> at[j] < at[k])
    && (forall k :: 0 <= k < |at| ==> n <= at[k] < |ops| && IsStage(ops[at[k]], absorbed))
    && forall i: nat :: n <= i < |ops| && IsStage(ops[i], absorbed) ==> i in at
  }

  /** The calls are those of exactly the absorbed kernel ops, each once and in base order, with its own
      arguments. */
  ghost predicate CallsTheAbsorbed(c: Context, ops: seq<BoundOp>, absorbed: set<string>, p: Plan) {
    exists at :: Picks(ops, absorbed, 0, at) && CallsAt(c, ops, at, p)
  }

  ghost predicate CallsAt(c: Context, ops: seq<BoundOp>, at: seq<nat>, p: Plan) {
    |at| == |p.calls| && forall k :: 0 <= k < |at| ==> at[k] < |ops| && IsCallOf(c, p.place, ops[at[k]], p.calls[k])
  }

  lemma PicksOneMore(ops: seq<BoundOp>, absorbed: set<string>, n: nat, at: seq<nat>)
    requires n < |ops| && Picks(ops, absorbed, n + 1, at)
    ensures IsStage(ops[n], absorbed) ==> Picks(ops, absorbed, n, [n] + at)
    ensures !IsStage(ops[n], absorbed) ==> Picks(ops, absorbed, n, at)
  {
    hide IsStage;
    var all := [n] + at;
    forall i: nat | n <= i < |ops| && IsStage(ops[i], absorbed)
      ensures i in all
    {
      assert i == n || i in at;
    }
  }

  lemma StagesStep(ops: seq<BoundOp>, absorbed: set<string>, n: nat)
    requires n < |ops|
    ensures Stages(ops[n..], absorbed) == (if IsStage(ops[n], absorbed) then [ops[n]] else []) + Stages(ops[n + 1..], absorbed)
  {
    assert ops[n..][0] == ops[n] && ops[n..][1..] == ops[n + 1..];
  }

  lemma {:induction false} StagesArePicked(ops: seq<BoundOp>, absorbed: set<string>, n: nat) returns (at: seq<nat>)
    requires n <= |ops|
    ensures Picks(ops, absorbed, n, at) && |at| == |Stages(ops[n..], absorbed)|
    ensures forall k :: 0 <= k < |at| ==> at[k] < |ops| && Stages(ops[n..], absorbed)[k] == ops[at[k]]
    decreases |ops| - n
  {
    if n == |ops| {
      at := [];
    } else {
      hide *;
      var rest := StagesArePicked(ops, absorbed, n + 1);
      PicksOneMore(ops, absorbed, n, rest);
      StagesStep(ops, absorbed, n);
      at := if IsStage(ops[n], absorbed) then [n] + rest else rest;
    }
  }

  lemma PlanCallsTheAbsorbed(c: Context, ops: seq<BoundOp>, absorbed: set<string>, p: Plan)
    requires |p.calls| == |Stages(ops, absorbed)|
    requires forall i :: 0 <= i < |p.calls| ==> IsCallOf(c, p.place, Stages(ops, absorbed)[i], p.calls[i])
    ensures CallsTheAbsorbed(c, ops, absorbed, p)
  {
    hide Stages, IsCallOf, Picks;
    var at := StagesArePicked(ops, absorbed, 0);
    assert ops[0..] == ops;
    assert CallsAt(c, ops, at, p);
  }

  lemma NoStagesIff(ops: seq<BoundOp>, absorbed: set<string>)
    ensures Stages(ops, absorbed) == [] <==> forall i :: 0 <= i < |ops| ==> !IsStage(ops[i], absorbed)
  {
    hide Stages;
    var at := StagesArePicked(ops, absorbed, 0);
    assert ops[0..] == ops;
    if i: nat :| i < |ops| && IsStage(ops[i], absorbed) {
      assert i in at;
    }
    if at != [] {
      assert IsStage(ops[at[0]], absorbed);
    }
  }

  /** What a call of the planner promises, whichever way it ends. */
  ghost predicate Planned(c: Context, stages: seq<BoundOp>, newArgs: seq<Arg>, cap: int, r: Result<Plan, Refusal>) {
    && (r.Ok? ==> stages != [] && IsPlan(c, stages, newArgs, cap, r.value))
    && (r == Err(NothingAbsorbed) <==> stages == [])
    && (r.Err? && r.error != NothingAbsorbed && r.error != OverCap <==> stages != [] && LiveOf(c, Events(stages)).Err?)
    && (stages != [] && LiveOf(c, Events(stages)).Err? ==> r == Err(LiveOf(c, Events(stages)).error))
    && (r == Err(OverCap) <==> stages != [] && LiveOf(c, Events(stages)).Ok? && TooLarge(c, LiveOf(c, Events(stages)).value, cap))
  }

  /** First fit needs more than the cap. */
  ghost predicate TooLarge(c: Context, l: Live, cap: int) {
    exists place, ws :: FirstFitIs(c.tensors, l, place, ws) && ws > cap
  }

  lemma PlanRefused(c: Context, stages: seq<BoundOp>, newArgs: seq<Arg>, cap: int, r: Result<Plan, Refusal>)
    requires if stages == [] then r == Err(NothingAbsorbed)
             else LiveOf(c, Events(stages)).Err? && r == Err(LiveOf(c, Events(stages)).error)
    ensures Planned(c, stages, newArgs, cap, r)
  {
    hide LiveOf, Events;
    LiveErrors(c, Events(stages));
  }

  lemma PlanOverCap(c: Context, stages: seq<BoundOp>, newArgs: seq<Arg>, cap: int, place: map<Name, int>, ws: int)
    requires stages != [] && LiveOf(c, Events(stages)).Ok? && ws > cap
    requires FirstFitIs(c.tensors, LiveOf(c, Events(stages)).value, place, ws)
    ensures Planned(c, stages, newArgs, cap, Err(OverCap))
  {
    hide LiveOf, Events, FirstFitIs;
  }

  lemma PlanMade(c: Context, stages: seq<BoundOp>, newArgs: seq<Arg>, cap: int, live: Live, p: Plan)
    requires stages != [] && LiveOf(c, Events(stages)) == Ok(live)
    requires Placed(c.tensors, live, p.place, p.wsBytes) && 0 <= p.wsBytes <= cap && live.consts <= p.place.Keys
    requires FirstFitIs(c.tensors, live, p.place, p.wsBytes)
    requires |p.calls| == |stages| && forall i :: 0 <= i < |stages| ==> IsCallOf(c, p.place, stages[i], p.calls[i])
    requires p.fills == map x | x in live.consts :: (p.place[x], Numel(MetaOf(c.tensors, x).shape))
    requires p.guard == Guard(newArgs)
    ensures Planned(c, stages, newArgs, cap, Ok(p))
  {
    hide LiveOf, Events, Placed, Guard, IsCallOf, Numel, MetaOf, FirstFitIs;
    NotTooLarge(c, live, cap, p.place, p.wsBytes);
  }

  lemma NotTooLarge(c: Context, l: Live, cap: int, place: map<Name, int>, ws: int)
    requires FirstFitIs(c.tensors, l, place, ws) && ws <= cap
    ensures !TooLarge(c, l, cap)
  {
    hide FirstFitIs;
    forall p, w | FirstFitIs(c.tensors, l, p, w)
      ensures w <= cap
    {
      FirstFitIsUnique(c.tensors, l, place, ws, p, w);
    }
  }

  lemma LifetimesAreRecorded(c: Context, stages: seq<BoundOp>)
    requires |stages| < FOREVER && LiveOf(c, Events(stages)).Ok?
    ensures Recorded(c, Events(stages), LiveOf(c, Events(stages)).value)
    ensures LiveOf(c, Events(stages)).value.first.Keys == LiveOf(c, Events(stages)).value.last.Keys
    ensures LiveOf(c, Events(stages)).value.consts <= LiveOf(c, Events(stages)).value.first.Keys
  {
    EventsInSequence(stages);
    ScanRecords(c, Events(stages));
  }

  lemma StagesReachable(c: Context, stages: seq<BoundOp>, place: map<Name, int>, ws: int)
    requires |stages| < FOREVER && LiveOf(c, Events(stages)).Ok?
    requires Placed(c.tensors, LiveOf(c, Events(stages)).value, place, ws)
    ensures AllReachable(c, place, stages)
    ensures place.Keys == LiveOf(c, Events(stages)).value.first.Keys
  {
    hide LiveOf, Events, Reachable;
    forall i | 0 <= i < |stages|
      ensures Reachable(c, place, stages[i].args)
    {
      StageReachable(c, stages, i, place);
    }
  }

  lemma {:induction false} StagesAreFew(ops: seq<BoundOp>, absorbed: set<string>)
    ensures |Stages(ops, absorbed)| <= |ops|
    ensures forall s :: s in Stages(ops, absorbed) ==> s in ops && s.name in absorbed && s.kind != "view"
  {
    if ops != [] {
      StagesAreFew(ops[1..], absorbed);
    }
  }

  lemma {:induction false} LiveErrors(c: Context, es: seq<(nat, Arg)>)
    ensures LiveOf(c, es).Err? ==> LiveOf(c, es).error != NothingAbsorbed && LiveOf(c, es).error != OverCap
  {
    if es != [] {
      LiveErrors(c, es[..|es| - 1]);
    }
  }

  lemma StageReachable(c: Context, stages: seq<BoundOp>, i: nat, place: map<Name, int>)
    requires |stages| < FOREVER && LiveOf(c, Events(stages)).Ok? && i < |stages|
    requires place.Keys == LiveOf(c, Events(stages)).value.first.Keys
    ensures Reachable(c, place, stages[i].args)
  {
    forall a | a in stages[i].args && a.Ptr? && Root(c.al, a.t) !in c.params
      ensures Root(c.al, a.t) in place
    {
      var k :| 0 <= k < |stages[i].args| && stages[i].args[k] == a;
      StagesWithinLifetimes(c, stages, i, k);
    }
  }

  // ---------------------------------------------------------------- running a plan

  type Mem = int -> int

  /** Shared workspace plus one buffer per parameter root. */
  datatype Machine = Machine(ws: Mem, bufs: Name -> Mem)

  datatype Loc = InWs(at: int) | InBuf(r: Name, at: int)

  /** Where a pointer points, given what the parameters are bound to. */
  function Locate(bound: map<string, (Name, int)>, e: Expr): Loc {
    match e
    case Ws(x) => InWs(x)
    case Param(p, d) => if p in bound then InBuf(bound[p].0, bound[p].1 + d) else InWs(d)
  }

  /** A parameter pointer points at its tensor: that many elements into the root's buffer. */
  ghost predicate BoundTo(c: Context, bound: map<string, (Name, int)>) {
    forall r :: r in c.params ==> c.params[r].0 in bound && bound[c.params[r].0] == (r, c.params[r].1 * ElemSize(c, r))
  }

  function At(c: Context, a: Arg): int
    requires a.Ptr?
  {
    Offset(c.al, a.t) * ElemSize(c, Root(c.al, a.t))
  }

  /** Address expressions denote the first byte of their tensor. */
  lemma ExprDenotes(c: Context, place: map<Name, int>, bound: map<string, (Name, int)>, a: Arg)
    requires a.Ptr? && BoundTo(c, bound)
    requires Root(c.al, a.t) in c.params || Root(c.al, a.t) in place
    ensures Locate(bound, ExprOf(c, place, a.t)) ==
      if Root(c.al, a.t) in c.params then InBuf(Root(c.al, a.t), At(c, a)) else InWs(place[Root(c.al, a.t)] + At(c, a))
  {
    var r, off, es := Root(c.al, a.t), Offset(c.al, a.t), ElemSize(c, Root(c.al, a.t));
    if r in c.params {
      Distribute(c.params[r].1, off - c.params[r].1, es);
    }
  }

  lemma Distribute(x: int, y: int, n: int)
    ensures x * n + y * n == (x + y) * n
  {
  }

  function Load(m: Mem, at: int, len: nat): seq<int> {
    seq(len, b => m(at + b))
  }

  function Store(m: Mem, at: int, v: seq<int>): Mem {
    (x: int) => if at <= x < at + |v| then v[x - at] else m(x)
  }

  function Fit(v: seq<int>, len: nat): (r: seq<int>)
    ensures |r| == len
  {
    seq(len, b requires 0 <= b < len => if b < |v| then v[b] else 0)
  }

  function StoreBuf(bufs: Name -> Mem, r: Name, at: int, v: seq<int>): Name -> Mem {
    (x: Name) => if x == r then Store(bufs(r), at, v) else bufs(x)
  }

  function LoadLoc(m: Machine, loc: Loc, len: nat): seq<int> {
    match loc
    case InWs(x) => Load(m.ws, x, len)
    case InBuf(r, x) => Load(m.bufs(r), x, len)
  }

  function StoreLoc(m: Machine, loc: Loc, v: seq<int>): Machine {
    match loc
    case InWs(x) => Machine(Store(m.ws, x, v), m.bufs)
    case InBuf(r, x) => Machine(m.ws, StoreBuf(m.bufs, r, x, v))
  }

  /** A kernel maps the contents of its inputs to those of its outputs; uninterpreted per stage. */
  type Kernel = (nat, seq<seq<int>>) -> seq<seq<int>>

  function Len(c: Context, a: Arg): nat
    requires a.Ptr?
  {
    if Bytes(c.tensors, a.t) < 0 then 0 else Bytes(c.tensors, a.t)
  }

  /** What the kernel reads through the first k arguments, with private buffers. */
  function PrivateIns(c: Context, args: seq<Arg>, k: nat, bufs: Name -> Mem): seq<seq<int>>
    requires k <= |args|
  {
    if k == 0 then []
    else
      var a := args[k - 1];
      PrivateIns(c, args, k - 1, bufs) +
      if a.Ptr? && a.dir == In then [Load(bufs(Root(c.al, a.t)), At(c, a), Len(c, a))] else []
  }

  /** Storing the first k outputs into private buffers; j counts the outputs before argument k. */
  function PrivateOuts(c: Context, args: seq<Arg>, k: nat, outs: seq<seq<int>>, bufs: Name -> Mem): Name -> Mem
    requires k <= |args|
  {
    if k == 0 then bufs
    else
      var a := args[k - 1];
      var b := PrivateOuts(c, args, k - 1, outs, bufs);
      if a.Ptr? && a.dir != In then StoreBuf(b, Root(c.al, a.t), At(c, a), OutValue(c, args, k - 1, outs)) else b
  }

  function Outs(args: seq<Arg>, k: nat): nat
    requires k <= |args|
  {
    if k == 0 then 0 else Outs(args, k - 1) + if args[k - 1].Ptr? && args[k - 1].dir != In then 1 else 0
  }

  function OutValue(c: Context, args: seq<Arg>, k: nat, outs: seq<seq<int>>): (v: seq<int>)
    requires k < |args| && args[k].Ptr?
    ensures |v| == Len(c, args[k])
  {
    Fit(if Outs(args, k) < |outs| then outs[Outs(args, k)] else [], Len(c, args[k]))
  }

  function PrivateRun(c: Context, stages: seq<BoundOp>, kern: Kernel, n: nat, bufs: Name -> Mem): Name -> Mem
    requires n <= |stages|
  {
    if n == 0 then bufs
    else
      var b := PrivateRun(c, stages, kern, n - 1, bufs);
      var args := stages[n - 1].args;
      PrivateOuts(c, args, |args|, kern(n - 1, PrivateIns(c, args, |args|, b)), b)
  }

  /** The same with the pointers of the plan. */
  function SharedIns(c: Context, place: map<Name, int>, bound: map<string, (Name, int)>, args: seq<Arg>, k: nat, m: Machine): seq<seq<int>>
    requires k <= |args| && Reachable(c, place, args)
  {
    if k == 0 then []
    else
      var a := args[k - 1];
      SharedIns(c, place, bound, args, k - 1, m) +
      if a.Ptr? && a.dir == In then [LoadLoc(m, Locate(bound, ExprOf(c, place, a.t)), Len(c, a))] else []
  }

  function SharedOuts(c: Context, place: map<Name, int>, bound: map<string, (Name, int)>, args: seq<Arg>, k: nat, outs: seq<seq<int>>, m: Machine): Machine
    requires k <= |args| && Reachable(c, place, args)
  {
    if k == 0 then m
    else
      var a := args[k - 1];
      var m' := SharedOuts(c, place, bound, args, k - 1, outs, m);
      if a.Ptr? && a.dir != In then StoreLoc(m', Locate(bound, ExprOf(c, place, a.t)), OutValue(c, args, k - 1, outs)) else m'
  }

  ghost predicate AllReachable(c: Context, place: map<Name, int>, stages: seq<BoundOp>) {
    forall i :: 0 <= i < |stages| ==> Reachable(c, place, stages[i].args)
  }

  function SharedRun(c: Context, place: map<Name, int>, bound: map<string, (Name, int)>, stages: seq<BoundOp>, kern: Kernel, n: nat, m: Machine): Machine
    requires n <= |stages| && AllReachable(c, place, stages)
  {
    if n == 0 then m
    else
      var m' := SharedRun(c, place, bound, stages, kern, n - 1, m);
      var args := stages[n - 1].args;
      SharedOuts(c, place, bound, args, |args|, kern(n - 1, SharedIns(c, place, bound, args, |args|, m')), m')
  }

  // ---------------------------------------------------------------- shared equals private

  /** Pointers stay inside the tensors that own the memory. */
  ghost predicate InBounds(c: Context, stages: seq<BoundOp>) {
    forall i, k :: 0 <= i < |stages| && 0 <= k < |stages[i].args| && stages[i].args[k].Ptr? ==> ArgInBounds(c, stages[i].args[k])
  }

  ghost predicate ArgInBounds(c: Context, a: Arg)
    requires a.Ptr?
  {
    0 <= At(c, a) && At(c, a) + Len(c, a) <= Bytes(c.tensors, Root(c.al, a.t))
  }

  type Cells = iset<(Name, int)>

  /** The bytes an output argument fills. */
  ghost function Region(c: Context, a: Arg): Cells
    requires a.Ptr?
  {
    iset b | At(c, a) <= b < At(c, a) + Len(c, a) :: (Root(c.al, a.t), b)
  }

  ghost function ArgsDefine(c: Context, args: seq<Arg>, k: nat): Cells
    requires k <= |args|
  {
    if k == 0 then iset{}
    else ArgsDefine(c, args, k - 1) + if args[k - 1].Ptr? && args[k - 1].dir != In then Region(c, args[k - 1]) else iset{}
  }

  /** The bytes with a defined value before stage n: constants, and what earlier stages wrote. */
  ghost function Defined(c: Context, stages: seq<BoundOp>, n: nat): Cells
    requires n <= |stages|
  {
    if n == 0 then iset x: (Name, int) | IsConst(c.tensors, x.0)
    else Defined(c, stages, n - 1) + ArgsDefine(c, stages[n - 1].args, |stages[n - 1].args|)
  }

  /** A stage reads from the workspace only bytes that have been written. */
  ghost predicate ReadsDefined(c: Context, stages: seq<BoundOp>) {
    forall i, k | 0 <= i < |stages| && 0 <= k < |stages[i].args| && stages[i].args[k].Ptr? && stages[i].args[k].dir == In &&
      Root(c.al, stages[i].args[k].t) !in c.params :: Region(c, stages[i].args[k]) <= Defined(c, stages, i)
  }

  // ---------------------------------------------------------------- what the planner's own check gives

  /** A write to the root at stage i. */
  ghost predicate WrittenAt(c: Context, es: seq<(nat, Arg)>, r: Name, i: int) {
    exists k :: 0 <= k < |es| && Writes(c, es[k], r, i)
  }

  ghost predicate Writes(c: Context, e: (nat, Arg), r: Name, i: int) {
    e.0 == i && TouchesRoot(c, e.1, r) && e.1.dir != In
  }

  /** The first touch of a workspace tensor is a write: the scan refuses a read of what nothing touched. */
  lemma {:induction false} FirstIsWritten(c: Context, es: seq<(nat, Arg)>, r: Name)
    requires LiveOf(c, es).Ok? && r in LiveOf(c, es).value.first && !IsConst(c.tensors, r)
    ensures WrittenAt(c, es, r, LiveOf(c, es).value.first[r])
  {
    if es != [] {
      var init, e := es[..|es| - 1], es[|es| - 1];
      var l0 := LiveOf(c, init).value;
      TouchUpdates(c, e, l0, LiveOf(c, es).value);
      if r in l0.first {
        FirstIsWritten(c, init, r);
        var k :| 0 <= k < |init| && Writes(c, init[k], r, l0.first[r]);
        assert Writes(c, es[k], r, l0.first[r]);
      } else {
        assert TouchesRoot(c, e.1, r);
        assert Writes(c, es[|es| - 1], r, e.0);
      }
    }
  }

  /** No stage reads a workspace tensor that it is itself the first to touch. */
  ghost predicate ReadsLater(c: Context, stages: seq<BoundOp>, l: Live) {
    forall i, k :: 0 <= i < |stages| && 0 <= k < |stages[i].args| ==> ReadLater(c, l, i, stages[i].args[k])
  }

  ghost predicate ReadLater(c: Context, l: Live, i: int, a: Arg) {
    a.Ptr? && a.dir == In && Root(c.al, a.t) !in c.params ==> Root(c.al, a.t) in l.first && l.first[Root(c.al, a.t)] < i
  }

  /** Every write to a workspace tensor fills all of the tensor that owns the memory. */
  ghost predicate WritesWhole(c: Context, stages: seq<BoundOp>) {
    forall i, k :: 0 <= i < |stages| && 0 <= k < |stages[i].args| ==> WriteWhole(c, stages[i].args[k])
  }

  ghost predicate WriteWhole(c: Context, a: Arg) {
    a.Ptr? && a.dir != In && Root(c.al, a.t) !in c.params ==> At(c, a) <= 0 && Bytes(c.tensors, Root(c.al, a.t)) <= At(c, a) + Len(c, a)
  }

  lemma {:induction false} ArgsDefineAt(c: Context, args: seq<Arg>, k: nat, a: Arg)
    requires k <= |args| && a in args[..k] && a.Ptr? && a.dir != In
    ensures Region(c, a) <= ArgsDefine(c, args, k)
  {
    hide Region;
    if args[k - 1] != a {
      assert args[..k] == args[..k - 1] + [args[k - 1]];
      ArgsDefineAt(c, args, k - 1, a);
    }
  }

  lemma {:induction false} DefinedGrows(c: Context, stages: seq<BoundOp>, m: nat, n: nat)
    requires m <= n <= |stages|
    ensures Defined(c, stages, m) <= Defined(c, stages, n)
  {
    hide ArgsDefine;
    if m < n {
      DefinedGrows(c, stages, m, n - 1);
    }
  }

  lemma WholeRegion(c: Context, w: Arg, a: Arg)
    requires w.Ptr? && a.Ptr? && Root(c.al, w.t) == Root(c.al, a.t) && ArgInBounds(c, a)
    requires At(c, w) <= 0 && Bytes(c.tensors, Root(c.al, w.t)) <= At(c, w) + Len(c, w)
    ensures Region(c, a) <= Region(c, w)
  {
    hide At, Len, Root, Bytes;
  }

  /** One read of a workspace tensor. */
  lemma ReadIsDefined(c: Context, stages: seq<BoundOp>, i: nat, a: Arg)
    requires |stages| < FOREVER && LiveOf(c, Events(stages)).Ok? && i < |stages| && WritesWhole(c, stages)
    requires a.Ptr? && ArgInBounds(c, a) && Root(c.al, a.t) !in c.params && !IsConst(c.tensors, Root(c.al, a.t))
    requires Root(c.al, a.t) in LiveOf(c, Events(stages)).value.first && LiveOf(c, Events(stages)).value.first[Root(c.al, a.t)] < i
    ensures Region(c, a) <= Defined(c, stages, i)
  {
    hide LiveOf, Events, IsConst, Region, Defined, Bytes, Root, At, Len;
    var es, r := Events(stages), Root(c.al, a.t);
    var f := LiveOf(c, es).value.first[r];
    FirstIsWritten(c, es, r);
    EventsInSequence(stages);
    var k :| 0 <= k < |es| && Writes(c, es[k], r, f);
    var w := es[k].1;
    assert es[k] in es;
    var j :| 0 <= j < |stages[f].args| && stages[f].args[j] == w;
    assert WriteWhole(c, stages[f].args[j]);
    WholeRegion(c, w, a);
    assert stages[f].args[..|stages[f].args|] == stages[f].args;
    ArgsDefineAt(c, stages[f].args, |stages[f].args|, w);
    DefinedStep(c, stages, f + 1);
    DefinedGrows(c, stages, f + 1, i);
  }

  lemma DefinedStep(c: Context, stages: seq<BoundOp>, n: nat)
    requires 0 < n <= |stages|
    ensures ArgsDefine(c, stages[n - 1].args, |stages[n - 1].args|) <= Defined(c, stages, n)
  {
    hide ArgsDefine;
  }

  lemma ConstRegion(c: Context, stages: seq<BoundOp>, n: nat, a: Arg)
    requires n <= |stages| && a.Ptr? && IsConst(c.tensors, Root(c.al, a.t))
    ensures Region(c, a) <= Defined(c, stages, n)
  {
    hide Defined, IsConst, At, Len, Root;
    forall cell | cell in Region(c, a)
      ensures cell in Defined(c, stages, n)
    {
      ConstsAreDefined(c, stages, n, Root(c.al, a.t), cell.1);
    }
  }

  /** With the planner's check: if no stage reads what it is the first to touch, and writes fill whole
      tensors, stages read only what has been written. */
  lemma GuardDefines(c: Context, stages: seq<BoundOp>)
    requires |stages| < FOREVER && LiveOf(c, Events(stages)).Ok? && InBounds(c, stages)
    requires ReadsLater(c, stages, LiveOf(c, Events(stages)).value) && WritesWhole(c, stages)
    ensures ReadsDefined(c, stages)
  {
    hide LiveOf, Events, IsConst, Region, Defined, Bytes, Root, WritesWhole, At, Len;
    forall i, k | 0 <= i < |stages| && 0 <= k < |stages[i].args| && stages[i].args[k].Ptr? && stages[i].args[k].dir == In &&
      Root(c.al, stages[i].args[k].t) !in c.params
      ensures Region(c, stages[i].args[k]) <= Defined(c, stages, i)
    {
      var a := stages[i].args[k];
      assert ReadLater(c, LiveOf(c, Events(stages)).value, i, stages[i].args[k]);
      assert ArgInBounds(c, stages[i].args[k]);
      if IsConst(c.tensors, Root(c.al, a.t)) {
        ConstRegion(c, stages, i, a);
      } else {
        ReadIsDefined(c, stages, i, a);
      }
    }
  }

  /** No stage reads an empty range of the workspace. */
  ghost predicate ReadsSomething(c: Context, stages: seq<BoundOp>) {
    forall i, k :: 0 <= i < |stages| && 0 <= k < |stages[i].args| ==> ReadSomething(c, stages[i].args[k])
  }

  ghost predicate ReadSomething(c: Context, a: Arg) {
    a.Ptr? && a.dir == In && Root(c.al, a.t) !in c.params ==> Len(c, a) > 0
  }

  /** In any plan: a stage that reads a workspace tensor which it is itself the first to touch reads
      unwritten bytes. */
  lemma ReadsDefinedNeedLater(c: Context, stages: seq<BoundOp>)
    requires |stages| < FOREVER && LiveOf(c, Events(stages)).Ok?
    requires ReadsDefined(c, stages) && ReadsSomething(c, stages)
    ensures ReadsLater(c, stages, LiveOf(c, Events(stages)).value)
  {
    hide LiveOf, Events, Region, Defined, Root, At, Len;
    forall i, k | 0 <= i < |stages| && 0 <= k < |stages[i].args|
      ensures ReadLater(c, LiveOf(c, Events(stages)).value, i, stages[i].args[k])
    {
      var a := stages[i].args[k];
      if a.Ptr? && a.dir == In && Root(c.al, a.t) !in c.params {
        StagesWithinLifetimes(c, stages, i, k);
        assert Region(c, stages[i].args[k]) <= Defined(c, stages, i);
        assert ReadSomething(c, stages[i].args[k]);
        InRegion(c, a, At(c, a));
        DefinedHasBegun(c, stages, i, Root(c.al, a.t), At(c, a));
      }
    }
  }

  /** The exact condition on plans whose writes fill whole tensors and whose reads are not empty: stages
      read only what has been written when and only when none reads what it is the first to touch. */
  lemma ReadsDefinedIff(c: Context, stages: seq<BoundOp>)
    requires |stages| < FOREVER && LiveOf(c, Events(stages)).Ok? && InBounds(c, stages)
    requires WritesWhole(c, stages) && ReadsSomething(c, stages)
    ensures ReadsDefined(c, stages) <==> ReadsLater(c, stages, LiveOf(c, Events(stages)).value)
  {
    hide *;
    if ReadsDefined(c, stages) {
      ReadsDefinedNeedLater(c, stages);
    }
    if ReadsLater(c, stages, LiveOf(c, Events(stages)).value) {
      GuardDefines(c, stages);
    }
  }

  // ---------------------------------------------------------------- what the check lets through

  const LITTLE: Context := Context(map["half" := ("t", 0)],
    map["t" := TensorMeta([2], "f32", None, ""), "half" := TensorMeta([1], "f32", None, "")], map[], {})

  /** The output comes first in the argument list, so the scan takes the tensor as produced. */
  const OUT_THEN_IN: seq<BoundOp> := [BoundOp("op", "k", [Ptr(Out, "y", "t"), Ptr(In, "x", "t")])]

  /** The first stage writes half of the tensor and the second reads all of it. */
  const HALF_WRITTEN: seq<BoundOp> := [BoundOp("a", "k", [Ptr(Out, "y", "half")]), BoundOp("b", "k", [Ptr(In, "x", "t")])]

  lemma LittleFacts()
    ensures Root(LITTLE.al, "t") == "t" && Offset(LITTLE.al, "t") == 0 && Root(LITTLE.al, "half") == "t" && Offset(LITTLE.al, "half") == 0
    ensures Bytes(LITTLE.tensors, "t") == 8 && Bytes(LITTLE.tensors, "half") == 4 && !IsConst(LITTLE.tensors, "t")
  {
    assert ResolveFrom(LITTLE.al, "half", 0, {}) == ResolveFrom(LITTLE.al, "t", 0, {"half"});
    assert [2][..0] == [] && [1][..0] == [];
    assert Numel([2]) == 2 && Numel([1]) == 1;
  }

  /** A stage that reads what it is the first to write is planned, and reads unwritten bytes. */
  lemma OutBeforeInIsPlanned()
    ensures LiveOf(LITTLE, Events(OUT_THEN_IN)).Ok? && InBounds(LITTLE, OUT_THEN_IN) && !ReadsDefined(LITTLE, OUT_THEN_IN)
  {
    LittleFacts();
    var a := OUT_THEN_IN[0].args;
    var l0 := Live(map[], map[], {});
    var l1 := Live(map["t" := 0], map["t" := 0], {});
    hide Root, Offset, Bytes, IsConst;
    assert Events(OUT_THEN_IN) == [(0, a[0]), (0, a[1])] by { assert OUT_THEN_IN[..0] == []; }
    TwoEvents(LITTLE, (0, a[0]), (0, a[1]));
    assert Touch(LITTLE, 0, a[0], l0) == Ok(l1);
    assert Touch(LITTLE, 0, a[1], l1) .Ok?;
    InRegion(LITTLE, a[1], 0);
    assert ("t", 0) !in Defined(LITTLE, OUT_THEN_IN, 0);
  }

  lemma TwoEvents(c: Context, e1: (nat, Arg), e2: (nat, Arg))
    ensures LiveOf(c, [e1, e2]) ==
      var l := Touch(c, e1.0, e1.1, Live(map[], map[], {})); if l.Err? then l else Touch(c, e2.0, e2.1, l.value)
  {
    hide Touch;
    assert [e1, e2][..1] == [e1] && [e1][..0] == [];
    assert LiveOf(c, [e1]) == Touch(c, e1.0, e1.1, Live(map[], map[], {}));
  }

  /** So is a read of a tensor of which only a part has been written. */
  lemma PartialWriteIsPlanned()
    ensures LiveOf(LITTLE, Events(HALF_WRITTEN)).Ok? && InBounds(LITTLE, HALF_WRITTEN) && !ReadsDefined(LITTLE, HALF_WRITTEN)
  {
    LittleFacts();
    var a, b := HALF_WRITTEN[0].args[0], HALF_WRITTEN[1].args[0];
    var l0 := Live(map[], map[], {});
    var l1 := Live(map["t" := 0], map["t" := 0], {});
    hide Root, Offset, Bytes, IsConst;
    assert HALF_WRITTEN[..1] == [HALF_WRITTEN[0]] && HALF_WRITTEN[..1][..0] == [];
    assert Events(HALF_WRITTEN[..1]) == [(0, a)];
    assert Events(HALF_WRITTEN) == [(0, a), (1, b)];
    TwoEvents(LITTLE, (0, a), (1, b));
    assert Touch(LITTLE, 0, a, l0) == Ok(l1);
    assert Touch(LITTLE, 1, b, l1).Ok?;
    InRegion(LITTLE, b, 4);
    HalfDefines();
  }

  lemma HalfDefines()
    ensures ("t", 4) !in Defined(LITTLE, HALF_WRITTEN, 1)
  {
    LittleFacts();
    var args := HALF_WRITTEN[0].args;
    assert ArgsDefine(LITTLE, args, 1) == ArgsDefine(LITTLE, args, 0) + Region(LITTLE, args[0]);
  }

  ghost predicate SameParams(c: Context, m: Machine, bufs: Name -> Mem) {
    forall r, b: int :: r in c.params ==> m.bufs(r)(b) == bufs(r)(b)
  }

  /** The workspace holds, for every root live at stage n, the defined bytes of its private buffer. */
  ghost predicate SameLive(c: Context, l: Live, place: map<Name, int>, n: int, cells: Cells, m: Machine, bufs: Name -> Mem) {
    forall r, b: int :: r in place && Within(l, r, n) && (r, b) in cells && 0 <= b < Bytes(c.tensors, r) ==>
      m.ws(place[r] + b) == bufs(r)(b)
  }

  ghost predicate Agrees(c: Context, l: Live, place: map<Name, int>, n: int, cells: Cells, m: Machine, bufs: Name -> Mem) {
    SameParams(c, m, bufs) && SameLive(c, l, place, n, cells, m, bufs)
  }

  /** An argument of stage n: what the proof needs to know about it. */
  ghost predicate ArgFits(c: Context, l: Live, place: map<Name, int>, n: int, a: Arg) {
    a.Ptr? ==>
      && ArgInBounds(c, a)
      && (Root(c.al, a.t) !in c.params ==> Root(c.al, a.t) in place && Within(l, Root(c.al, a.t), n))
  }

  lemma LoadSame(ws: Mem, base: int, at: int, len: nat, buf: Mem)
    requires forall b :: at <= b < at + len ==> ws(base + b) == buf(b)
    ensures Load(ws, base + at, len) == Load(buf, at, len)
  {
    var x, y := Load(ws, base + at, len), Load(buf, at, len);
    forall b | 0 <= b < |x|
      ensures x[b] == y[b]
    {
      assert ws(base + (at + b)) == buf(at + b);
    }
  }

  lemma LiveByte(c: Context, l: Live, place: map<Name, int>, n: int, cells: Cells, m: Machine, bufs: Name -> Mem, r: Name, b: int)
    requires Agrees(c, l, place, n, cells, m, bufs)
    requires r in place && Within(l, r, n) && (r, b) in cells && 0 <= b < Bytes(c.tensors, r)
    ensures m.ws(place[r] + b) == bufs(r)(b)
  {
    hide Within, Bytes, SameParams;
  }

  lemma ParamBuffer(c: Context, m: Machine, bufs: Name -> Mem, r: Name, at: int, len: nat)
    requires SameParams(c, m, bufs) && r in c.params
    ensures Load(m.bufs(r), at, len) == Load(bufs(r), at, len)
  {
  }

  lemma InRegion(c: Context, a: Arg, b: int)
    requires a.Ptr? && At(c, a) <= b < At(c, a) + Len(c, a)
    ensures (Root(c.al, a.t), b) in Region(c, a)
  {
    hide At, Len, Root;
  }

  lemma LoadAgrees(c: Context, l: Live, place: map<Name, int>, bound: map<string, (Name, int)>, n: int, cells: Cells,
                   m: Machine, bufs: Name -> Mem, a: Arg)
    requires a.Ptr? && ArgFits(c, l, place, n, a) && BoundTo(c, bound)
    requires Agrees(c, l, place, n, cells, m, bufs)
    requires Root(c.al, a.t) in c.params || Region(c, a) <= cells
    ensures LoadLoc(m, Locate(bound, ExprOf(c, place, a.t)), Len(c, a)) == Load(bufs(Root(c.al, a.t)), At(c, a), Len(c, a))
  {
    ExprDenotes(c, place, bound, a);
    hide SameLive, SameParams, BoundTo, ExprOf, Locate, Region, Within, Load, At, Len, Root, Bytes;
    var r := Root(c.al, a.t);
    if r in c.params {
      ParamBuffer(c, m, bufs, r, At(c, a), Len(c, a));
    } else {
      forall b | At(c, a) <= b < At(c, a) + Len(c, a)
        ensures m.ws(place[r] + b) == bufs(r)(b)
      {
        InRegion(c, a, b);
        LiveByte(c, l, place, n, cells, m, bufs, r, b);
      }
      LoadSame(m.ws, place[r], At(c, a), Len(c, a), bufs(r));
    }
  }

  lemma StoreSame(ws: Mem, base: int, at: int, v: seq<int>, buf: Mem, b: int)
    requires at <= b < at + |v| || ws(base + b) == buf(b)
    ensures Store(ws, base + at, v)(base + b) == Store(buf, at, v)(b)
  {
  }

  lemma StoreElsewhere(ws: Mem, at: int, v: seq<int>, x: int)
    requires x < at || at + |v| <= x
    ensures Store(ws, at, v)(x) == ws(x)
  {
  }

  /** One live byte after a store to the workspace. */
  lemma StoredByte(c: Context, l: Live, place: map<Name, int>, ws: int, n: int, cells: Cells, m: Machine, bufs: Name -> Mem, a: Arg,
                   v: seq<int>, r: Name, b: int)
    requires SaneShapes(c.tensors) && Placed(c.tensors, l, place, ws)
    requires a.Ptr? && ArgFits(c, l, place, n, a) && |v| == Len(c, a) && Root(c.al, a.t) in place && Root(c.al, a.t) !in c.params
    requires Agrees(c, l, place, n, cells, m, bufs)
    requires r in place && Within(l, r, n) && (r, b) in cells + Region(c, a) && 0 <= b < Bytes(c.tensors, r)
    ensures Store(m.ws, place[Root(c.al, a.t)] + At(c, a), v)(place[r] + b) == StoreBuf(bufs, Root(c.al, a.t), At(c, a), v)(r)(b)
  {
    hide SaneShapes, Placed, Agrees, Bytes, At, Len, Within, Root, Region, Store;
    var s, at := Root(c.al, a.t), At(c, a);
    if r == s && at <= b < at + |v| {
      StoreSame(m.ws, place[s], at, v, bufs(s), b);
    } else {
      NotInRegion(c, a, r, b, cells);
      LiveByte(c, l, place, n, cells, m, bufs, r, b);
      if r == s {
        StoreSame(m.ws, place[s], at, v, bufs(s), b);
      } else {
        RootsApart(c, l, place, ws, n, r, s);
        StoreElsewhere(m.ws, place[s] + at, v, place[r] + b);
      }
    }
  }

  lemma StoreToWs(c: Context, l: Live, place: map<Name, int>, ws: int, n: int, cells: Cells, m: Machine, bufs: Name -> Mem, a: Arg, v: seq<int>)
    requires SaneShapes(c.tensors) && Placed(c.tensors, l, place, ws)
    requires forall r :: r in place ==> r !in c.params
    requires a.Ptr? && ArgFits(c, l, place, n, a) && |v| == Len(c, a) && Root(c.al, a.t) in place
    requires Agrees(c, l, place, n, cells, m, bufs)
    ensures Agrees(c, l, place, n, cells + Region(c, a), StoreLoc(m, InWs(place[Root(c.al, a.t)] + At(c, a)), v),
                   StoreBuf(bufs, Root(c.al, a.t), At(c, a), v))
  {
    hide SaneShapes, Placed, Bytes, At, Len, Within, Root, Region, Store, ArgFits;
    var s, at := Root(c.al, a.t), At(c, a);
    var m2, bufs2 := StoreLoc(m, InWs(place[s] + at), v), StoreBuf(bufs, s, at, v);
    forall r, b: int | r in place && Within(l, r, n) && (r, b) in cells + Region(c, a) && 0 <= b < Bytes(c.tensors, r)
      ensures m2.ws(place[r] + b) == bufs2(r)(b)
    {
      StoredByte(c, l, place, ws, n, cells, m, bufs, a, v, r, b);
    }
    assert SameLive(c, l, place, n, cells + Region(c, a), m2, bufs2);
    assert SameParams(c, m2, bufs2);
  }

  lemma NotInRegion(c: Context, a: Arg, r: Name, b: int, cells: Cells)
    requires a.Ptr? && (r, b) in cells + Region(c, a)
    requires r != Root(c.al, a.t) || !(At(c, a) <= b < At(c, a) + Len(c, a))
    ensures (r, b) in cells
  {
  }

  lemma StoreToParam(c: Context, l: Live, place: map<Name, int>, n: int, cells: Cells, m: Machine, bufs: Name -> Mem, a: Arg, v: seq<int>)
    requires forall r :: r in place ==> r !in c.params
    requires a.Ptr? && Root(c.al, a.t) in c.params
    requires Agrees(c, l, place, n, cells, m, bufs)
    ensures Agrees(c, l, place, n, cells + Region(c, a), StoreLoc(m, InBuf(Root(c.al, a.t), At(c, a)), v),
                   StoreBuf(bufs, Root(c.al, a.t), At(c, a), v))
  {
    var s, at := Root(c.al, a.t), At(c, a);
    var m2, bufs2 := StoreLoc(m, InBuf(s, at), v), StoreBuf(bufs, s, at, v);
    hide Bytes, At, Len, Within, Root;
    forall r, b: int | r in place && Within(l, r, n) && (r, b) in cells + Region(c, a) && 0 <= b < Bytes(c.tensors, r)
      ensures m2.ws(place[r] + b) == bufs2(r)(b)
    {
      assert r != s;
      assert (r, b) in cells by { NotInRegion(c, a, r, b, cells); }
      assert m.ws(place[r] + b) == bufs(r)(b);
    }
  }

  /** Storing one output keeps the agreement: roots live at one stage do not share a byte. */
  lemma StoreAgrees(c: Context, l: Live, place: map<Name, int>, ws: int, bound: map<string, (Name, int)>, n: int, cells: Cells,
                    m: Machine, bufs: Name -> Mem, a: Arg, v: seq<int>)
    requires SaneShapes(c.tensors) && Placed(c.tensors, l, place, ws) && BoundTo(c, bound)
    requires forall r :: r in place ==> r !in c.params
    requires a.Ptr? && ArgFits(c, l, place, n, a) && |v| == Len(c, a)
    requires Agrees(c, l, place, n, cells, m, bufs)
    ensures Agrees(c, l, place, n, cells + Region(c, a), StoreLoc(m, Locate(bound, ExprOf(c, place, a.t)), v),
                   StoreBuf(bufs, Root(c.al, a.t), At(c, a), v))
  {
    ExprDenotes(c, place, bound, a);
    hide Agrees, SaneShapes, Placed, StoreLoc, StoreBuf, ExprOf, Locate, Region;
    if Root(c.al, a.t) in c.params {
      StoreToParam(c, l, place, n, cells, m, bufs, a, v);
    } else {
      StoreToWs(c, l, place, ws, n, cells, m, bufs, a, v);
    }
  }

  lemma RootsApart(c: Context, l: Live, place: map<Name, int>, ws: int, n: int, r: Name, s: Name)
    requires SaneShapes(c.tensors) && Placed(c.tensors, l, place, ws)
    requires r in place && s in place && r != s && Within(l, r, n) && Within(l, s, n)
    ensures Apart(place[r], Bytes(c.tensors, r), place[s], Bytes(c.tensors, s))
  {
    SizeFacts(c.tensors, r);
    SizeFacts(c.tensors, s);
    assert Overlap(l, r, s);
  }

  lemma {:induction false} InsAgree(c: Context, l: Live, place: map<Name, int>, bound: map<string, (Name, int)>, n: int, cells: Cells,
                                    m: Machine, bufs: Name -> Mem, args: seq<Arg>, k: nat)
    requires k <= |args| && Reachable(c, place, args) && BoundTo(c, bound)
    requires forall a :: a in args ==> ArgFits(c, l, place, n, a)
    requires forall a :: a in args && a.Ptr? && a.dir == In && Root(c.al, a.t) !in c.params ==> Region(c, a) <= cells
    requires Agrees(c, l, place, n, cells, m, bufs)
    ensures SharedIns(c, place, bound, args, k, m) == PrivateIns(c, args, k, bufs)
  {
    if k > 0 {
      var a := args[k - 1];
      assert a in args;
      InsAgree(c, l, place, bound, n, cells, m, bufs, args, k - 1);
      if a.Ptr? && a.dir == In {
        LoadAgrees(c, l, place, bound, n, cells, m, bufs, a);
      }
    }
  }

  lemma OutsStart(c: Context, place: map<Name, int>, bound: map<string, (Name, int)>, args: seq<Arg>, outs: seq<seq<int>>, m: Machine,
                  bufs: Name -> Mem, cells: Cells)
    requires Reachable(c, place, args)
    ensures SharedOuts(c, place, bound, args, 0, outs, m) == m && PrivateOuts(c, args, 0, outs, bufs) == bufs
    ensures cells + ArgsDefine(c, args, 0) == cells
  {
  }

  lemma OutsStep(c: Context, place: map<Name, int>, bound: map<string, (Name, int)>, args: seq<Arg>, k: nat, outs: seq<seq<int>>, m: Machine,
                 bufs: Name -> Mem)
    requires 0 < k <= |args| && Reachable(c, place, args)
    ensures var a := args[k - 1]; var m1, b1 := SharedOuts(c, place, bound, args, k - 1, outs, m), PrivateOuts(c, args, k - 1, outs, bufs);
      if a.Ptr? && a.dir != In then
        && a in args && (Root(c.al, a.t) in c.params || Root(c.al, a.t) in place)
        && |OutValue(c, args, k - 1, outs)| == Len(c, a)
        && SharedOuts(c, place, bound, args, k, outs, m) == StoreLoc(m1, Locate(bound, ExprOf(c, place, a.t)), OutValue(c, args, k - 1, outs))
        && PrivateOuts(c, args, k, outs, bufs) == StoreBuf(b1, Root(c.al, a.t), At(c, a), OutValue(c, args, k - 1, outs))
        && ArgsDefine(c, args, k) == ArgsDefine(c, args, k - 1) + Region(c, a)
      else
        && SharedOuts(c, place, bound, args, k, outs, m) == m1 && PrivateOuts(c, args, k, outs, bufs) == b1
        && ArgsDefine(c, args, k) == ArgsDefine(c, args, k - 1)
  {
    hide Root, At, Len, Region, OutValue, ExprOf, Locate, StoreLoc, StoreBuf;
    assert args[k - 1] in args;
    assert ArgsDefine(c, args, k - 1) + iset{} == ArgsDefine(c, args, k - 1);
  }

  lemma {:induction false} OutsAgree(c: Context, l: Live, place: map<Name, int>, ws: int, bound: map<string, (Name, int)>, n: int, cells: Cells,
                                     m: Machine, bufs: Name -> Mem, args: seq<Arg>, k: nat, outs: seq<seq<int>>)
    requires k <= |args| && Reachable(c, place, args) && BoundTo(c, bound)
    requires SaneShapes(c.tensors) && Placed(c.tensors, l, place, ws)
    requires forall r :: r in place ==> r !in c.params
    requires forall a :: a in args ==> ArgFits(c, l, place, n, a)
    requires Agrees(c, l, place, n, cells, m, bufs)
    ensures Agrees(c, l, place, n, cells + ArgsDefine(c, args, k), SharedOuts(c, place, bound, args, k, outs, m),
                   PrivateOuts(c, args, k, outs, bufs))
  {
    hide *;
    if k == 0 {
      OutsStart(c, place, bound, args, outs, m, bufs, cells);
    } else {
      var a := args[k - 1];
      assert a in args;
      OutsAgree(c, l, place, ws, bound, n, cells, m, bufs, args, k - 1, outs);
      OutsStep(c, place, bound, args, k, outs, m, bufs);
      if a.Ptr? && a.dir != In {
        StoreAgrees(c, l, place, ws, bound, n, cells + ArgsDefine(c, args, k - 1),
                    SharedOuts(c, place, bound, args, k - 1, outs, m), PrivateOuts(c, args, k - 1, outs, bufs), a, OutValue(c, args, k - 1, outs));
        assert cells + ArgsDefine(c, args, k) == cells + ArgsDefine(c, args, k - 1) + Region(c, a);
      }
    }
  }

  /** A defined byte of the workspace belongs to a constant or to a root whose life has begun. */
  lemma {:induction false} DefinedHasBegun(c: Context, stages: seq<BoundOp>, n: nat, r: Name, b: int)
    requires n <= |stages| < FOREVER && LiveOf(c, Events(stages)).Ok?
    requires (r, b) in Defined(c, stages, n) && r in LiveOf(c, Events(stages)).value.first
    ensures LiveOf(c, Events(stages)).value.first[r] < n
  {
    hide LiveOf, Events, Recorded, ArgsDefine, Root;
    LifetimesAreRecorded(c, stages);
    if n == 0 {
      ConstsStartEarly(c, Events(stages), LiveOf(c, Events(stages)).value, r);
    } else if (r, b) in Defined(c, stages, n - 1) {
      DefinedHasBegun(c, stages, n - 1, r, b);
    } else {
      var args := stages[n - 1].args;
      var k := DefinedBy(c, args, |args|, r, b);
      if r !in c.params {
        StagesWithinLifetimes(c, stages, n - 1, k);
      } else {
        ParamsHaveNoLifetime(c, stages, r);
      }
    }
  }

  lemma ConstsAreConst(c: Context, es: seq<(nat, Arg)>, l: Live, r: Name)
    requires Recorded(c, es, l) && r in l.consts
    ensures r in l.first && IsConst(c.tensors, r)
  {
  }

  lemma ConstsStartEarly(c: Context, es: seq<(nat, Arg)>, l: Live, r: Name)
    requires Recorded(c, es, l) && r in l.first && IsConst(c.tensors, r)
    ensures l.first[r] == -1 && r in l.last && l.last[r] == FOREVER
  {
  }

  lemma ParamsHaveNoLifetime(c: Context, stages: seq<BoundOp>, r: Name)
    requires |stages| < FOREVER && LiveOf(c, Events(stages)).Ok? && r in c.params
    ensures r !in LiveOf(c, Events(stages)).value.first
  {
    LifetimesAreRecorded(c, stages);
  }

  lemma {:induction false} DefinedBy(c: Context, args: seq<Arg>, k: nat, r: Name, b: int) returns (j: nat)
    requires k <= |args| && (r, b) in ArgsDefine(c, args, k)
    ensures j < k && args[j].Ptr? && args[j].dir != In && Root(c.al, args[j].t) == r
  {
    if args[k - 1].Ptr? && args[k - 1].dir != In && (r, b) in Region(c, args[k - 1]) {
      j := k - 1;
    } else {
      j := DefinedBy(c, args, k - 1, r, b);
    }
  }

  /** What the bytes of the machine must be when a run starts: parameters as given, constants filled. */
  ghost predicate Started(c: Context, l: Live, place: map<Name, int>, m: Machine, bufs: Name -> Mem)
    requires l.consts <= place.Keys
  {
    && SameParams(c, m, bufs)
    && forall r, b: int :: r in l.consts && 0 <= b < Bytes(c.tensors, r) ==> m.ws(place[r] + b) == bufs(r)(b)
  }

  lemma StageArgsFit(c: Context, stages: seq<BoundOp>, place: map<Name, int>, n: nat)
    requires |stages| < FOREVER && LiveOf(c, Events(stages)).Ok? && n < |stages| && InBounds(c, stages)
    requires place.Keys == LiveOf(c, Events(stages)).value.first.Keys
    ensures forall a :: a in stages[n].args ==> ArgFits(c, LiveOf(c, Events(stages)).value, place, n, a)
  {
    hide LiveOf, Events, ArgInBounds, Within;
    forall a | a in stages[n].args && a.Ptr?
      ensures ArgFits(c, LiveOf(c, Events(stages)).value, place, n, a)
    {
      var k :| 0 <= k < |stages[n].args| && stages[n].args[k] == a;
      assert ArgInBounds(c, stages[n].args[k]);
      if Root(c.al, a.t) !in c.params {
        StagesWithinLifetimes(c, stages, n, k);
        WithinIsPlaced(LiveOf(c, Events(stages)).value, Root(c.al, a.t), n);
      }
    }
  }

  lemma WithinIsPlaced(l: Live, r: Name, n: int)
    requires Within(l, r, n)
    ensures r in l.first
  {
  }

  /** From the end of one stage to the start of the next: a root live there was live before. */
  lemma NextStage(c: Context, stages: seq<BoundOp>, place: map<Name, int>, n: nat, m: Machine, bufs: Name -> Mem)
    requires n < |stages| < FOREVER && LiveOf(c, Events(stages)).Ok?
    requires Agrees(c, LiveOf(c, Events(stages)).value, place, n, Defined(c, stages, n + 1), m, bufs)
    ensures Agrees(c, LiveOf(c, Events(stages)).value, place, n + 1, Defined(c, stages, n + 1), m, bufs)
  {
    hide LiveOf, Events, Defined;
    var l := LiveOf(c, Events(stages)).value;
    forall r, b: int | r in place && Within(l, r, n + 1) && (r, b) in Defined(c, stages, n + 1) && 0 <= b < Bytes(c.tensors, r)
      ensures m.ws(place[r] + b) == bufs(r)(b)
    {
      DefinedHasBegun(c, stages, n + 1, r, b);
      assert Within(l, r, n);
    }
  }

  /** Before every stage the shared machine agrees with the private buffers. */
  lemma {:induction false} SharedRunAgrees(c: Context, stages: seq<BoundOp>, place: map<Name, int>, ws: int,
                                           bound: map<string, (Name, int)>, kern: Kernel, n: nat, m: Machine, bufs: Name -> Mem)
    requires n <= |stages| < FOREVER && SaneShapes(c.tensors) && LiveOf(c, Events(stages)).Ok?
    requires Placed(c.tensors, LiveOf(c, Events(stages)).value, place, ws) && AllReachable(c, place, stages)
    requires BoundTo(c, bound) && InBounds(c, stages) && ReadsDefined(c, stages)
    requires LiveOf(c, Events(stages)).value.consts <= place.Keys
    requires Started(c, LiveOf(c, Events(stages)).value, place, m, bufs)
    ensures Agrees(c, LiveOf(c, Events(stages)).value, place, n, Defined(c, stages, n),
                   SharedRun(c, place, bound, stages, kern, n, m), PrivateRun(c, stages, kern, n, bufs))
  {
    hide *;
    var l := LiveOf(c, Events(stages)).value;
    PlacedKeys(c, stages, place, ws);
    if n == 0 {
      RunsStart(c, stages, place, bound, kern, m, bufs);
    } else {
      var args := stages[n - 1].args;
      SharedRunAgrees(c, stages, place, ws, bound, kern, n - 1, m, bufs);
      var m1, b1 := SharedRun(c, place, bound, stages, kern, n - 1, m), PrivateRun(c, stages, kern, n - 1, bufs);
      StageArgsFit(c, stages, place, n - 1);
      StageFacts(c, stages, place, n - 1);
      InsAgree(c, l, place, bound, n - 1, Defined(c, stages, n - 1), m1, b1, args, |args|);
      var outs := kern(n - 1, PrivateIns(c, args, |args|, b1));
      OutsAgree(c, l, place, ws, bound, n - 1, Defined(c, stages, n - 1), m1, b1, args, |args|, outs);
      RunsStep(c, place, bound, stages, kern, n, m, bufs);
      NextStage(c, stages, place, n - 1, SharedRun(c, place, bound, stages, kern, n, m), PrivateRun(c, stages, kern, n, bufs));
    }
  }

  lemma RunsStart(c: Context, stages: seq<BoundOp>, place: map<Name, int>, bound: map<string, (Name, int)>, kern: Kernel, m: Machine, bufs: Name -> Mem)
    requires |stages| < FOREVER && LiveOf(c, Events(stages)).Ok? && AllReachable(c, place, stages)
    requires place.Keys == LiveOf(c, Events(stages)).value.first.Keys
    requires LiveOf(c, Events(stages)).value.consts <= place.Keys
    requires Started(c, LiveOf(c, Events(stages)).value, place, m, bufs)
    ensures Agrees(c, LiveOf(c, Events(stages)).value, place, 0, Defined(c, stages, 0),
                   SharedRun(c, place, bound, stages, kern, 0, m), PrivateRun(c, stages, kern, 0, bufs))
  {
    hide LiveOf, Events, IsConst;
    LifetimesAreRecorded(c, stages);
  }

  lemma RunsStep(c: Context, place: map<Name, int>, bound: map<string, (Name, int)>, stages: seq<BoundOp>, kern: Kernel, n: nat, m: Machine, bufs: Name -> Mem)
    requires 0 < n <= |stages| && AllReachable(c, place, stages)
    ensures var args := stages[n - 1].args; var m1 := SharedRun(c, place, bound, stages, kern, n - 1, m); var b1 := PrivateRun(c, stages, kern, n - 1, bufs);
      && SharedRun(c, place, bound, stages, kern, n, m) == SharedOuts(c, place, bound, args, |args|, kern(n - 1, SharedIns(c, place, bound, args, |args|, m1)), m1)
      && PrivateRun(c, stages, kern, n, bufs) == PrivateOuts(c, args, |args|, kern(n - 1, PrivateIns(c, args, |args|, b1)), b1)
      && Defined(c, stages, n) == Defined(c, stages, n - 1) + ArgsDefine(c, args, |args|)
  {
    hide SharedOuts, PrivateOuts, SharedIns, PrivateIns, ArgsDefine;
  }

  lemma PlacedKeys(c: Context, stages: seq<BoundOp>, place: map<Name, int>, ws: int)
    requires |stages| < FOREVER && LiveOf(c, Events(stages)).Ok?
    requires Placed(c.tensors, LiveOf(c, Events(stages)).value, place, ws)
    ensures place.Keys == LiveOf(c, Events(stages)).value.first.Keys
    ensures forall r :: r in place ==> r !in c.params
  {
    hide LiveOf, Events;
    forall r | r in place
      ensures r !in c.params
    {
      if r in c.params { ParamsHaveNoLifetime(c, stages, r); }
    }
  }

  lemma StageFacts(c: Context, stages: seq<BoundOp>, place: map<Name, int>, n: nat)
    requires n < |stages| && AllReachable(c, place, stages) && ReadsDefined(c, stages)
    ensures Reachable(c, place, stages[n].args)
    ensures forall a :: a in stages[n].args && a.Ptr? && a.dir == In && Root(c.al, a.t) !in c.params ==>
      Region(c, a) <= Defined(c, stages, n)
  {
    hide Region, Defined, Reachable;
    forall a | a in stages[n].args && a.Ptr? && a.dir == In && Root(c.al, a.t) !in c.params
      ensures Region(c, a) <= Defined(c, stages, n)
    {
      var k :| 0 <= k < |stages[n].args| && stages[n].args[k] == a;
    }
  }

  /** Reusing workspace bytes is invisible: every stage reads what it would read with private
      buffers, every parameter buffer ends with the same contents, and every constant region
      still holds what the private buffer of the constant holds. */
  lemma WorkspaceReuseIsInvisible(c: Context, stages: seq<BoundOp>, newArgs: seq<Arg>, cap: int, p: Plan,
                                  bound: map<string, (Name, int)>, kern: Kernel, m: Machine, bufs: Name -> Mem)
    requires |stages| < FOREVER && SaneShapes(c.tensors) && IsPlan(c, stages, newArgs, cap, p)
    requires BoundTo(c, bound) && InBounds(c, stages) && ReadsDefined(c, stages)
    requires Started(c, LiveOf(c, Events(stages)).value, p.place, m, bufs)
    ensures forall i :: 0 <= i < |stages| ==>
      SharedIns(c, p.place, bound, stages[i].args, |stages[i].args|, SharedRun(c, p.place, bound, stages, kern, i, m)) ==
      PrivateIns(c, stages[i].args, |stages[i].args|, PrivateRun(c, stages, kern, i, bufs))
    ensures SameParams(c, SharedRun(c, p.place, bound, stages, kern, |stages|, m), PrivateRun(c, stages, kern, |stages|, bufs))
    ensures Started(c, LiveOf(c, Events(stages)).value, p.place, SharedRun(c, p.place, bound, stages, kern, |stages|, m),
                    PrivateRun(c, stages, kern, |stages|, bufs))
  {
    hide LiveOf, Events, Placed, Defined, SharedRun, PrivateRun, SharedIns, PrivateIns, SameLive, InBounds, ReadsDefined, BoundTo, Reachable, SameParams;
    var l := LiveOf(c, Events(stages)).value;
    PlacedKeys(c, stages, p.place, p.wsBytes);
    forall i | 0 <= i < |stages|
      ensures SharedIns(c, p.place, bound, stages[i].args, |stages[i].args|, SharedRun(c, p.place, bound, stages, kern, i, m)) ==
        PrivateIns(c, stages[i].args, |stages[i].args|, PrivateRun(c, stages, kern, i, bufs))
    {
      SharedRunAgrees(c, stages, p.place, p.wsBytes, bound, kern, i, m, bufs);
      StageArgsFit(c, stages, p.place, i);
      StageFacts(c, stages, p.place, i);
      InsAgree(c, l, p.place, bound, i, Defined(c, stages, i), SharedRun(c, p.place, bound, stages, kern, i, m),
               PrivateRun(c, stages, kern, i, bufs), stages[i].args, |stages[i].args|);
    }
    SharedRunAgrees(c, stages, p.place, p.wsBytes, bound, kern, |stages|, m, bufs);
    ConstsSurvive(c, stages, p.place, |stages|, SharedRun(c, p.place, bound, stages, kern, |stages|, m),
                  PrivateRun(c, stages, kern, |stages|, bufs));
  }

  lemma ConstsSurvive(c: Context, stages: seq<BoundOp>, place: map<Name, int>, n: nat, m: Machine, bufs: Name -> Mem)
    requires n <= |stages| < FOREVER && LiveOf(c, Events(stages)).Ok?
    requires LiveOf(c, Events(stages)).value.consts <= place.Keys
    requires Agrees(c, LiveOf(c, Events(stages)).value, place, n, Defined(c, stages, n), m, bufs)
    ensures Started(c, LiveOf(c, Events(stages)).value, place, m, bufs)
  {
    hide LiveOf, Events, Defined, SameParams, Recorded, Bytes;
    var l := LiveOf(c, Events(stages)).value;
    LifetimesAreRecorded(c, stages);
    forall r, b: int | r in l.consts && 0 <= b < Bytes(c.tensors, r)
      ensures m.ws(place[r] + b) == bufs(r)(b)
    {
      ConstsAreConst(c, Events(stages), l, r);
      ConstsStartEarly(c, Events(stages), l, r);
      ConstsAreDefined(c, stages, n, r, b);
      assert Within(l, r, n);
    }
  }

  lemma {:induction false} ConstsAreDefined(c: Context, stages: seq<BoundOp>, n: nat, r: Name, b: int)
    requires n <= |stages| && IsConst(c.tensors, r)
    ensures (r, b) in Defined(c, stages, n)
  {
    if n > 0 {
      ConstsAreDefined(c, stages, n - 1, r, b);
    }
  }
}
