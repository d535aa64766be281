/** What the kernels of an attention chain compute, in exact arithmetic with infinities
    (pipeline/reference_kernels.py, pipeline/reference_kernels_ext.py).

    Kernels stay uninterpreted elsewhere; here a kernel function is asked to mean what the reference
    kernels of the matched kinds and of `attention_f16` say. Softmax is any function of a row. */
module AttentionKernels {
  import opened Ir
  import opened Attention

  // ---------------------------------------------------------------- arithmetic

  /** The sign of a number that is one. */
  function Sign(x: Num): int {
    match x
    case Fin(v) => if v > 0.0 then 1 else if v < 0.0 then -1 else 0
    case PosInf => 1
    case NegInf => -1
    case NaN => 0
  }

  function Mul(a: Num, b: Num): Num {
    if a.NaN? || b.NaN? then NaN
    else if a.Fin? && b.Fin? then Fin(a.value * b.value)
    else if Sign(a) * Sign(b) == 0 then NaN
    else if Sign(a) * Sign(b) > 0 then PosInf else NegInf
  }

  function Add(a: Num, b: Num): Num {
    if a.NaN? || b.NaN? then NaN
    else if a.Fin? && b.Fin? then Fin(a.value + b.value)
    else if a.Fin? then b
    else if b.Fin? || a == b then a
    else NaN
  }

  function Relu(x: Num): Num {
    if Sign(x) < 0 then Fin(0.0) else x
  }

  /** Positive factors may be multiplied first: infinities keep their sign. */
  lemma MulTwice(c1: real, c2: real, x: Num)
    requires c1 > 0.0 && c2 > 0.0
    ensures Mul(Fin(c2), Mul(Fin(c1), x)) == Mul(Fin(c1 * c2), x)
  {
    assert c1 * c2 > 0.0;
    if x.Fin? {
      MulReals(c1, c2, x.value);
    }
  }

  lemma MulReals(a: real, b: real, c: real)
    ensures b * (a * c) == a * b * c
  {
  }

  /** With any other factor a hidden score does not stay hidden. */
  lemma OnlyPositiveScalesHide(c: real)
    ensures Mul(Fin(c), NegInf) == NegInf <==> c > 0.0
  {
  }

  function At(x: Value, i: int): Num {
    if 0 <= i < |x| then x[i] else NaN
  }

  /** n neighbours of `x` from `i` on times every step-th element of `y` from `j` on. */
  function Dot(x: Value, i: int, y: Value, j: int, step: int, n: nat): Num {
    if n == 0 then Fin(0.0)
    else Add(Dot(x, i, y, j, step, n - 1), Mul(At(x, i + (n - 1)), At(y, j + (n - 1) * step)))
  }

  /** `n` elements from `i` on. */
  function Slice(x: Value, i: int, n: nat): (r: Value)
    ensures |r| == n && forall k :: 0 <= k < n ==> r[k] == At(x, i + k)
  {
    seq(n, k requires 0 <= k < n => At(x, i + k))
  }

  /** A product depends on the neighbours it reads only. */
  lemma {:induction false} SameDot(x1: Value, i1: int, x2: Value, i2: int, y: Value, j: int, step: int, n: nat)
    requires Slice(x1, i1, n) == Slice(x2, i2, n)
    ensures Dot(x1, i1, y, j, step, n) == Dot(x2, i2, y, j, step, n)
  {
    if n > 0 {
      assert Slice(x1, i1, n - 1) == Slice(x1, i1, n)[..n - 1];
      assert Slice(x2, i2, n - 1) == Slice(x2, i2, n)[..n - 1];
      SameDot(x1, i1, x2, i2, y, j, step, n - 1);
      assert Slice(x1, i1, n)[n - 1] == At(x1, i1 + (n - 1));
      assert Slice(x2, i2, n)[n - 1] == At(x2, i2 + (n - 1));
    }
  }

  // ---------------------------------------------------------------- the kinds of a chain

  type Soft = (Value, nat) -> Num

  function Size(n: int): nat { if n < 0 then 0 else n }

  /** Element `i` of batches of m-by-n products of m-by-k and k-by-n matrices. */
  function BmmAt(m: nat, k: nat, n: nat, x: Value, y: Value, i: nat): Num {
    if m == 0 || n == 0 then NaN else Dot(x, i / n * k, y, i / n / m * k * n + i % n, n, k)
  }

  function Bmm(batch: nat, m: nat, k: nat, n: nat, x: Value, y: Value): (r: Value)
    ensures |r| == batch * m * n && forall i :: 0 <= i < |r| ==> r[i] == BmmAt(m, k, n, x, y, i)
  {
    seq(batch * m * n, i requires 0 <= i < batch * m * n => BmmAt(m, k, n, x, y, i))
  }

  function BmmOf(o: Op, x: Value, y: Value): Value {
    Bmm(Size(Number(o, "batch")), Size(Number(o, "M")), Size(Number(o, "K")), Size(Number(o, "N")), x, y)
  }

  function Scaled(c: real, x: Value): (r: Value)
    ensures |r| == |x| && forall i :: 0 <= i < |x| ==> r[i] == Mul(Fin(c), x[i])
  {
    seq(|x|, i requires 0 <= i < |x| => Mul(Fin(c), x[i]))
  }

  /** Division by a number: infinities keep or change their sign with it. */
  function Over(x: Num, c: real): Num
    requires c != 0.0
  {
    match x
    case Fin(v) => Fin(v / c)
    case PosInf => if c > 0.0 then PosInf else NegInf
    case NegInf => if c > 0.0 then NegInf else PosInf
    case NaN => NaN
  }

  /** What is divided by `c` gives, times `c`, what it was. */
  lemma OverUndone(x: Num, c: real)
    requires c != 0.0
    ensures Mul(Fin(c), Over(x, c)) == x
  {
  }

  /** Dividing is multiplying with the reciprocal. */
  lemma OverIsTimes(x: Num, c: real)
    requires c != 0.0
    ensures Over(x, c) == Mul(Fin(1.0 / c), x)
  {
    if x.Fin? {
      QuotientIs(x.value, c);
    } else {
      assert c * (1.0 / c) == 1.0;
      SameSign(c);
    }
  }

  lemma QuotientIs(v: real, c: real)
    requires c != 0.0
    ensures v / c == 1.0 / c * v
  {
    var q, r := v / c, 1.0 / c;
    assert q * c == v && r * c == 1.0;
    assert (q - r * v) * c == q * c - r * c * v;
  }

  lemma SameSign(c: real)
    requires c != 0.0
    ensures c > 0.0 <==> 1.0 / c > 0.0
    ensures 1.0 / c != 0.0
  {
    var r := 1.0 / c;
    assert r * c == 1.0;
  }

  function Divided(c: real, x: Value): (r: Value)
    requires c != 0.0
    ensures |r| == |x| && forall i :: 0 <= i < |x| ==> r[i] == Over(x[i], c)
  {
    seq(|x|, i requires 0 <= i < |x| => Over(x[i], c))
  }

  /** How many elements there are per index of dimension `k - 1`. */
  function After(o: Op, k: nat): int
    requires k <= 6
    decreases 6 - k
  {
    if k == 6 then 1 else Number(o, DIMS[k]) * After(o, k + 1)
  }

  /** Index `k` of the element at `i`. */
  function Coordinate(o: Op, k: nat, i: int): int
    requires k < 6
  {
    if After(o, k + 1) == 0 || Number(o, DIMS[k]) == 0 then 0 else i / After(o, k + 1) % Number(o, DIMS[k])
  }

  /** Where an operand holds the element at `i`: the sum of its first `k` indices times their strides. */
  function Lies(o: Op, strides: seq<string>, k: nat, i: int): int
    requires k <= 6 && |strides| == 6
  {
    if k == 0 then 0 else Lies(o, strides, k - 1, i) + Coordinate(o, k - 1, i) * Number(o, strides[k - 1])
  }

  predicate MaskSet(mask: Value, o: Op, i: int) {
    var p := Lies(o, STRIDES_B, 6, i);
    0 <= p < |mask| && mask[p] != Fin(0.0)
  }

  /** Minus infinity where the mask is set. */
  function Filled(o: Op, x: Value, mask: Value): (r: Value)
    ensures |r| == Size(After(o, 0))
    ensures forall i :: 0 <= i < |r| ==> r[i] == if MaskSet(mask, o, i) then NegInf else At(x, Lies(o, STRIDES_A, 6, i))
  {
    seq(Size(After(o, 0)), i requires 0 <= i < Size(After(o, 0)) =>
      if MaskSet(mask, o, i) then NegInf else At(x, Lies(o, STRIDES_A, 6, i)))
  }

  /** Softmax or relu of a row of scores. */
  function ActRow(soft: Soft, act: Act, row: Value): (r: Value)
    ensures |r| == |row|
  {
    seq(|row|, n requires 0 <= n < |row| => match act case Softmax => soft(row, n) case Relu => Relu(row[n]))
  }

  /** The same for a tensor whose rows have `n` elements. */
  function ActRows(soft: Soft, act: Act, n: nat, x: Value): (r: Value)
    ensures |r| == |x|
    ensures forall i :: 0 <= i < |x| ==> r[i] == if n == 0 then NaN else ActRow(soft, act, Slice(x, i / n * n, n))[i % n]
  {
    seq(|x|, i requires 0 <= i < |x| => if n == 0 then NaN else ActRow(soft, act, Slice(x, i / n * n, n))[i % n])
  }

  function ReluAll(x: Value): (r: Value)
    ensures |r| == |x|
  {
    seq(|x|, i requires 0 <= i < |x| => Relu(x[i]))
  }

  // ---------------------------------------------------------------- attention

  datatype Formula = Formula(batch: nat, m: nat, n: nat, d: nat, dv: nat, scale: real, causal: bool, act: Act)

  /** The score of key `n` for row `r` of the queries; rows count queries through all batches. */
  function ScoreAt(f: Formula, q: Value, kT: Value, r: nat, n: nat): Num {
    if f.m == 0 then NaN
    else if f.causal && n > r % f.m then NegInf
    else Mul(Fin(f.scale), Dot(q, r * f.d, kT, r / f.m * f.d * f.n + n, f.n, f.d))
  }

  function ScoreRow(f: Formula, q: Value, kT: Value, r: nat): (s: Value)
    ensures |s| == f.n
  {
    seq(f.n, n requires 0 <= n < f.n => ScoreAt(f, q, kT, r, n))
  }

  /** act(scale * q k^T, later keys hidden when causal) v, row by row. */
  function Attended(soft: Soft, f: Formula, q: Value, kT: Value, v: Value): (o: Value)
    ensures |o| == f.batch * f.m * f.dv
  {
    seq(f.batch * f.m * f.dv, j requires 0 <= j < f.batch * f.m * f.dv => AttendedAt(soft, f, q, kT, v, j))
  }

  function AttendedAt(soft: Soft, f: Formula, q: Value, kT: Value, v: Value, j: nat): Num {
    if f.dv == 0 || f.m == 0 then NaN
    else Dot(ActRow(soft, f.act, ScoreRow(f, q, kT, j / f.dv)), 0, v, j / f.dv / f.m * f.n * f.dv + j % f.dv, f.dv, f.n)
  }

  /** Operands lie one after the other: the kernel's offsets and strides are not modelled. */
  function FormulaOf(o: Op): Formula {
    Formula(Size(Number(o, "B0") * Number(o, "B1")), Size(Number(o, "M")), Size(Number(o, "N")),
            Size(Number(o, "D")), Size(Number(o, "DV")), if "scale" in o.body.quant then o.body.quant["scale"] else 1.0,
            Number(o, "causal") != 0, if Number(o, "act") == 0 then Softmax else Act.Relu)
  }

  // ---------------------------------------------------------------- kernels that mean this

  ghost predicate Gives(k: Kernels, o: Op, vs: seq<Value>, v: Value) {
    k(o.body, vs) != [] && k(o.body, vs)[0] == v
  }

  /** An elementwise op says what it applies by name, or by its number in the kernel's table. */
  predicate Applies(o: Op, fn: string, code: int) { Text_(o, "fn") == fn || Number(o, "opc") == code }

  /** The value a kernel of a known kind makes first. */
  function Meant(soft: Soft, o: Op, vs: seq<Value>): Option<Value> {
    if |vs| == 0 then None
    else
      match o.body.kind
      case "bmm_f16" => if |vs| >= 2 then Some(BmmOf(o, vs[0], vs[1])) else None
      case "mul_scalar_f16" => if "scalar" in o.body.quant then Some(Scaled(o.body.quant["scalar"], vs[0])) else None
      case "ewise_scalar_f16" => if "c" in o.body.quant then MeantScalar(Number(o, "opc"), o.body.quant["c"], vs[0]) else None
      case "ewise2_f16" =>
        if |vs| >= 2 && Applies(o, "masked_fill", 7) && Text_(o, "alpha") == "-inf" then Some(Filled(o, vs[0], vs[1])) else None
      case "softmax_f16" => Some(ActRows(soft, Softmax, Size(RowLength(o)), vs[0]))
      case "softmax_dim_f16" => if IsRowSoftmax(o) then Some(ActRows(soft, Softmax, Size(RowLength(o)), vs[0])) else None
      case "relu_f16" => Some(ReluAll(vs[0]))
      case "ewise1_f16" => if Applies(o, "relu", 8) then Some(ReluAll(vs[0])) else None
      case "view" => if NumberOr(o, "offset", 0) == 0 then Some(vs[0]) else None
      case "attention_f16" => if |vs| >= 3 then Some(Attended(soft, FormulaOf(o), vs[0], vs[1], vs[2])) else None
      case _ => None
  }

  /** Of the operations with a constant: 3 multiplies with it and 4 divides by it. */
  function MeantScalar(code: int, c: real, x: Value): Option<Value> {
    if code == 3 then Some(Scaled(c, x))
    else if code == 4 && c != 0.0 then Some(Divided(c, x))
    else None
  }

  /** Softmax over neighbouring elements. */
  predicate IsRowSoftmax(o: Op) {
    o.body.kind == "softmax_f16" ||
    (o.body.kind == "softmax_dim_f16" && NumberOr(o, "inner", 1) == 1 && Text_(o, "log_out") == "")
  }

  function RowLength(o: Op): int {
    if o.body.kind == "softmax_f16" then Number(o, "K") else Number(o, "R")
  }

  ghost predicate Interprets(k: Kernels, soft: Soft) {
    forall o: Op, vs: seq<Value> :: Meant(soft, o, vs).Some? ==> Gives(k, o, vs, Meant(soft, o, vs).value)
  }

  /** The kernels of the known kinds; any other op makes nothing. */
  function Reference(soft: Soft): Kernels {
    (body: Body, vs: seq<Value>) =>
      var v := Meant(soft, Op("", body, [], [], [], [], None, [], None, Original, map[]), vs);
      if v.Some? then [v.value] else []
  }

  lemma ReferenceInterprets(soft: Soft)
    ensures Interprets(Reference(soft), soft)
  {
    forall o: Op, vs: seq<Value> | Meant(soft, o, vs).Some?
      ensures Gives(Reference(soft), o, vs, Meant(soft, o, vs).value)
    {
      OnlyBodyMatters(soft, o, Op("", o.body, [], [], [], [], None, [], None, Original, map[]), vs);
    }
  }

  lemma OnlyBodyMatters(soft: Soft, o: Op, p: Op, vs: seq<Value>)
    requires o.body == p.body
    ensures Meant(soft, o, vs) == Meant(soft, p, vs)
  {
    forall x, mask
      ensures Filled(o, x, mask) == Filled(p, x, mask)
    {
      FillOnlyBody(o, p, x, mask);
    }
  }

  lemma {:induction false} AfterOnlyBody(o: Op, p: Op, k: nat)
    requires o.body == p.body && k <= 6
    ensures After(o, k) == After(p, k)
    decreases 6 - k
  {
    if k < 6 {
      AfterOnlyBody(o, p, k + 1);
    }
  }

  lemma {:induction false} LiesOnlyBody(o: Op, p: Op, strides: seq<string>, k: nat, i: int)
    requires o.body == p.body && k <= 6 && |strides| == 6
    ensures Lies(o, strides, k, i) == Lies(p, strides, k, i)
  {
    if k > 0 {
      LiesOnlyBody(o, p, strides, k - 1, i);
      AfterOnlyBody(o, p, k);
    }
  }

  lemma FillOnlyBody(o: Op, p: Op, x: Value, mask: Value)
    requires o.body == p.body
    ensures Filled(o, x, mask) == Filled(p, x, mask)
  {
    AfterOnlyBody(o, p, 0);
    hide Lies;
    forall i
      ensures Lies(o, STRIDES_A, 6, i) == Lies(p, STRIDES_A, 6, i) && Lies(o, STRIDES_B, 6, i) == Lies(p, STRIDES_B, 6, i)
    {
      LiesOnlyBody(o, p, STRIDES_A, 6, i);
      LiesOnlyBody(o, p, STRIDES_B, 6, i);
    }
  }

  // ---------------------------------------------------------------- two ways to index

  /** Dividing in two steps is dividing once. */
  lemma DivideTwice(i: nat, a: nat, b: nat)
    requires a > 0 && b > 0
    ensures b * a > 0 && i / a / b == i / (b * a)
  {
    var q, t := i / a, i % a;
    var r, s := q / b, q % b;
    assert i == q * a + t && t < a;
    assert q == r * b + s && s < b;
    MulLess(s, b, a);
    Recombined(q, a, t, r, b, s);
    OneQuotient(i, b * a, r, s * a + t);
  }

  lemma Recombined(q: nat, a: nat, t: nat, r: nat, b: nat, s: nat)
    requires q == r * b + s
    ensures q * a + t == r * (b * a) + (s * a + t)
  {
    assert (r * b + s) * a == r * b * a + s * a;
  }

  lemma MulLess(x: nat, b: nat, a: nat)
    requires x < b && a > 0
    ensures x * a + a <= b * a
  {
    assert (x + 1) * a <= b * a;
  }

  lemma OneQuotient(i: nat, n: nat, r: nat, rest: nat)
    requires n > 0 && i == r * n + rest && rest < n
    ensures i / n == r
  {
    var q := i / n;
    assert i == q * n + i % n;
    if q < r {
      MulLess(q, r, n);
    } else if q > r {
      MulLess(r, q, n);
    }
  }

  lemma Regroup(p: int, d: int, a: int)
    ensures p * d * a == p * (d * a)
  {
  }

  lemma {:induction false} ProductIsAll(o: Op, k: nat)
    requires k <= 6
    ensures Product(o, k) * After(o, k) == After(o, 0)
  {
    if k > 0 {
      ProductIsAll(o, k - 1);
      assert Product(o, k) == Product(o, k - 1) * Number(o, DIMS[k - 1]);
      assert After(o, k - 1) == Number(o, DIMS[k - 1]) * After(o, k);
      hide *;
      Regroup(Product(o, k - 1), Number(o, DIMS[k - 1]), After(o, k));
    }
  }

  ghost predicate HasSizes(o: Op) {
    forall k :: 0 <= k < 6 ==> Number(o, DIMS[k]) > 0
  }

  lemma {:induction false} AfterPositive(o: Op, k: nat)
    requires HasSizes(o) && k <= 6
    ensures After(o, k) > 0
    decreases 6 - k
  {
    if k < 6 {
      AfterPositive(o, k + 1);
      assert Number(o, DIMS[k]) > 0;
      hide Number;
      assert 1 * After(o, k + 1) <= Number(o, DIMS[k]) * After(o, k + 1);
    }
  }

  /** Taking indices off the end, as the mask check does, finds what the kernel finds index by index. */
  lemma {:induction false} OffsetLies(o: Op, strides: seq<string>, k: nat, i: nat)
    requires HasSizes(o) && k <= 6 && |strides| == 6
    ensures After(o, k) > 0 && Offset(o, strides, k, i / After(o, k)) == Lies(o, strides, k, i)
  {
    AfterPositive(o, k);
    if k > 0 {
      OffsetLies(o, strides, k - 1, i);
      assert Number(o, DIMS[k - 1]) > 0;
      assert After(o, k - 1) == Number(o, DIMS[k - 1]) * After(o, k);
      hide Number, After;
      DivideTwice(i, After(o, k), Number(o, DIMS[k - 1]));
    }
  }

  /** With elements and no negative size, every size is positive. */
  lemma {:induction false} SizesFrom(o: Op, k: nat)
    requires k <= 6 && After(o, k) != 0 && forall j :: 0 <= j < 6 ==> Number(o, DIMS[j]) >= 0
    ensures forall j :: k <= j < 6 ==> Number(o, DIMS[j]) > 0
    decreases 6 - k
  {
    if k < 6 {
      SizesFrom(o, k + 1);
    }
  }

  lemma OffsetIsPlace(o: Op, strides: seq<string>, i: nat)
    requires HasSizes(o) && |strides| == 6
    ensures Offset(o, strides, 6, i) == Lies(o, strides, 6, i)
  {
    OffsetLies(o, strides, 6, i);
    hide Offset, Lies;
  }
}
