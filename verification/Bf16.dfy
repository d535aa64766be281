/** bfloat16 rounding on float32 bit patterns (pipeline/cuda_dtypes.py).

    `RoundHi` is the uint32 formula. The theorems compare it with round-to-nearest-even of
    section 4.3.1 of IEEE 754-2019, for every one of the 2^32 patterns. All finite float32
    values are integer multiples of 2^-149, so values are exact integers in that unit. */
module Bf16 {

  type U32 = x: int | 0 <= x < 0x1_0000_0000

  const SIGN := 0x8000_0000
  const INF := 0x7F80_0000
  const HALF := 0x1_0000        // weight of the lowest bit a bfloat16 keeps
  const HIDDEN := 0x80_0000     // the implicit significand bit of a normal float32
  const QUIET := 0x40_0000

  predicate IsNaN(u: U32) { u % SIGN > INF }

  /** u & 0xFFFF0000 */
  function ClearLow(u: U32): U32 { u - u % HALF }

  /** u | 0x400000 */
  function SetQuiet(u: U32): U32 {
    if (u / QUIET) % 2 == 1 then u else u + QUIET
  }

  /** (u + 0x7FFF + ((u >> 16) & 1)) & 0xFFFF0000 in uint32 arithmetic, NaN patterns replaced. */
  function RoundHi(u: U32): U32 {
    var sum := (u + 0x7FFF + (u / HALF) % 2) % 0x1_0000_0000;
    if IsNaN(u) then ClearLow(SetQuiet(u)) else ClearLow(sum)
  }

  // ---------------------------------------------------------------- values

  function Pow2(n: nat): (r: nat)
    ensures r >= 1
  {
    if n == 0 then 1 else 2 * Pow2(n - 1)
  }

  lemma {:induction false} Pow2Add(a: nat, b: nat)
    ensures Pow2(a + b) == Pow2(a) * Pow2(b)
  {
    if a > 0 {
      Pow2Add(a - 1, b);
    }
  }

  /** The size of one step at exponent field e, in units of 2^-149. */
  function Ulp(e: nat): nat { Pow2(if e == 0 then 0 else e - 1) }

  /** The magnitude of a sign-free pattern in units of 2^-149; at INF the value 2^128 that would
      come next if the exponent range went on. */
  function Mag(p: nat): nat {
    var e, m := p / HIDDEN, p % HIDDEN;
    if e == 0 then m else (HIDDEN + m) * Ulp(e)
  }

  function Value(u: U32): int {
    if u < SIGN then Mag(u) else -(Mag(u - SIGN) as int)
  }

  predicate IsFinite(u: U32) { u % SIGN < INF }

  /** A bfloat16 is a float32 whose low half is zero. */
  predicate IsBf16(u: U32) { u % HALF == 0 }

  predicate EvenPattern(u: U32) { (u / HALF) % 2 == 0 }

  function Abs(x: int): nat { if x < 0 then -x else x }

  /** b^emax (b - b^(1-p) / 2) of bfloat16, where b = 2, p = 8 and emax = 127. */
  function OverflowThreshold(): int { Pow2(277) - Pow2(268) }

  /** Section 4.3.1: r is the bfloat16 that round-to-nearest-even delivers for the finite x. */
  ghost predicate RoundsTo(x: U32, r: U32) {
    && IsBf16(r)
    && (r < SIGN <==> x < SIGN)
    && (Abs(Value(x)) >= OverflowThreshold() <==> r % SIGN == INF)
    && (Abs(Value(x)) < OverflowThreshold() ==>
        && IsFinite(r)
        && (forall b: U32 :: IsBf16(b) && IsFinite(b) ==>
              && Abs(Value(r) - Value(x)) <= Abs(Value(b) - Value(x))
              && (Abs(Value(r) - Value(x)) == Abs(Value(b) - Value(x)) ==> Value(b) == Value(r) || EvenPattern(r))))
  }

  // ---------------------------------------------------------------- magnitudes

  /** Between two neighbouring bfloat16 patterns magnitudes grow linearly, also into the next
      binade and up to infinity. */
  lemma MagIsLinear(low: nat, l: nat)
    requires low % HALF == 0 && low < INF && l <= HALF
    ensures Mag(low + l) == Mag(low) + l * Ulp(low / HIDDEN)
  {
    var e, m := low / HIDDEN, low % HIDDEN;
    assert m + l <= HIDDEN;
    if m + l < HIDDEN {
      assert (low + l) / HIDDEN == e && (low + l) % HIDDEN == m + l;
      if e > 0 {
        assert (HIDDEN + m + l) * Ulp(e) == (HIDDEN + m) * Ulp(e) + l * Ulp(e);
      }
    } else {
      assert (low + l) / HIDDEN == e + 1 && (low + l) % HIDDEN == 0;
      if e > 0 {
        assert Ulp(e + 1) == 2 * Ulp(e);
        assert HIDDEN * (2 * Ulp(e)) == (HIDDEN + m) * Ulp(e) + l * Ulp(e);
      }
    }
  }

  lemma MagInSpan(p: nat)
    requires p < INF
    ensures var low := p - p % HALF;
      && Mag(p) == Mag(low) + p % HALF * Ulp(low / HIDDEN)
      && Mag(low + HALF) == Mag(low) + HALF * Ulp(low / HIDDEN)
      && Ulp(low / HIDDEN) >= 1
  {
    var low := p - p % HALF;
    MagIsLinear(low, p % HALF);
    MagIsLinear(low, HALF);
  }

  lemma {:induction false} MagGrowsByHalves(a: nat, b: nat)
    requires a % HALF == 0 && b % HALF == 0 && a <= b <= INF
    ensures Mag(a) <= Mag(b)
    ensures a < b ==> Mag(a) < Mag(b)
    decreases b - a
  {
    if a < b {
      MagIsLinear(b - HALF, HALF);
      MagGrowsByHalves(a, b - HALF);
      assert HALF * Ulp((b - HALF) / HIDDEN) >= 1;
    }
  }

  lemma MagGrowsInSpan(p: nat, q: nat)
    requires p < q < INF && p - p % HALF == q - q % HALF
    ensures Mag(p) < Mag(q)
  {
    hide Mag, Ulp;
    MagInSpan(p);
    MagInSpan(q);
    StepsGrow(p % HALF, q % HALF, Ulp((p - p % HALF) / HIDDEN));
  }

  lemma MagBelowNext(p: nat)
    requires p < INF
    ensures Mag(p - p % HALF) <= Mag(p) < Mag(p - p % HALF + HALF)
  {
    hide Mag, Ulp;
    MagInSpan(p);
    StepsGrow(p % HALF, HALF, Ulp((p - p % HALF) / HIDDEN));
  }

  /** Patterns without sign are ordered as their magnitudes. */
  lemma MagGrows(p: nat, q: nat)
    requires p < q <= INF
    ensures Mag(p) < Mag(q)
  {
    hide Mag;
    var lowP, lowQ := p - p % HALF, q - q % HALF;
    MagBelowNext(p);
    if q < INF { MagBelowNext(q); }
    if lowP == lowQ {
      MagGrowsInSpan(p, q);
    } else {
      MagGrowsByHalves(lowP + HALF, lowQ);
    }
  }

  lemma StepsGrow(a: nat, b: nat, step: nat)
    requires a < b && step >= 1
    ensures a * step < b * step
  {
    assert (b - a) * step >= 1;
    assert b * step == a * step + (b - a) * step;
  }

  lemma StepsCompare(a: nat, b: nat, step: nat)
    requires step >= 1
    ensures a < b <==> a * step < b * step
    ensures a == b <==> a * step == b * step
  {
    if a < b { StepsGrow(a, b, step); }
    if b < a { StepsGrow(b, a, step); }
  }

  // ---------------------------------------------------------------- the formula picks a neighbour

  /** Whether the formula goes up from pattern p (its sign removed). */
  predicate GoesUp(p: nat) {
    p % HALF > 0x8000 || (p % HALF == 0x8000 && (p / HALF) % 2 == 1)
  }

  function RoundedPattern(p: nat): nat {
    p - p % HALF + if GoesUp(p) then HALF else 0
  }

  /** The addition wraps on NaN patterns only. */
  lemma WrapsOnlyOnNaN(u: U32)
    requires u + 0x7FFF + (u / HALF) % 2 >= 0x1_0000_0000
    ensures IsNaN(u)
  {
    assert u >= 0xFFFF_8000;
  }

  /** The same in terms of the sign s, the bits h a bfloat16 keeps and the low half lo. */
  lemma FormulaSplit(s: nat, h: nat, lo: nat)
    requires s < 2 && h < 0x8000 && lo < HALF
    ensures var k := s * 0x8000 + h; var u := k * HALF + lo;
      && u < 0x1_0000_0000 && u / HALF == k && u % HALF == lo && k % 2 == h % 2
      && u % SIGN == h * HALF + lo && (u < SIGN <==> s == 0)
  {
    var k := s * 0x8000 + h;
    var u := k * HALF + lo;
    assert k < HALF;
    assert u == s * SIGN + (h * HALF + lo);
  }

  /** Off the NaN patterns nothing wraps. */
  lemma NoWrap(u: U32)
    requires !IsNaN(u)
    ensures var sum := u + 0x7FFF + (u / HALF) % 2;
      sum < 0x1_0000_0000 && RoundHi(u) == ClearLow(sum)
  {
    if u + 0x7FFF + (u / HALF) % 2 >= 0x1_0000_0000 {
      WrapsOnlyOnNaN(u);
    }
  }

  lemma FormulaPicks(u: U32)
    requires !IsNaN(u)
    ensures RoundHi(u) == RoundedPattern(u % SIGN) + (if u < SIGN then 0 else SIGN)
    ensures RoundedPattern(u % SIGN) <= INF
  {
    hide RoundHi;
    NoWrap(u);
    var p := u % SIGN;
    PickSplit(u / SIGN, p / HALF, p % HALF);
    FormulaSplit(u / SIGN, p / HALF, p % HALF);
    SumClears((u / SIGN) * 0x8000 + p / HALF, p % HALF, (p / HALF) % 2);
  }

  lemma PickSplit(s: nat, h: nat, lo: nat)
    requires s < 2 && h < 0x8000 && lo < HALF
    ensures var p := h * HALF + lo;
      RoundedPattern(p) + s * SIGN == (if lo + 0x7FFF + h % 2 >= HALF then s * 0x8000 + h + 1 else s * 0x8000 + h) * HALF
  {
    var p := h * HALF + lo;
    assert p / HALF == h && p % HALF == lo;
  }

  /** Clearing the low half of the sum carries into k or not. */
  lemma SumClears(k: nat, lo: nat, odd: nat)
    requires lo < HALF && odd < 2
    ensures var sum := k * HALF + lo + 0x7FFF + odd;
      sum - sum % HALF == (if lo + 0x7FFF + odd >= HALF then k + 1 else k) * HALF
  {
    var up := if lo + 0x7FFF + odd >= HALF then 1 else 0;
    var rest := lo + 0x7FFF + odd - up * HALF;
    assert 0 <= rest < HALF;
    assert k * HALF + lo + 0x7FFF + odd == (k + up) * HALF + rest;
  }

  // ---------------------------------------------------------------- nearest, ties to even

  /** Distances from p to the neighbours decide as the low half does. */
  lemma NeighbourDistances(p: nat)
    requires p < INF
    ensures var low := p - p % HALF; var up := low + HALF;
      && Mag(low) <= Mag(p) < Mag(up)
      && (Mag(p) - Mag(low) < Mag(up) - Mag(p) <==> p % HALF < 0x8000)
      && (Mag(p) - Mag(low) == Mag(up) - Mag(p) <==> p % HALF == 0x8000)
  {
    hide Mag, Ulp;
    var low := p - p % HALF;
    var step := Ulp(low / HIDDEN);
    MagInSpan(p);
    var lo := p % HALF;
    assert HALF * step - lo * step == (HALF - lo) * step;
    StepsGrow(lo, HALF, step);
    StepsCompare(lo, HALF - lo, step);
  }

  /** The overflow threshold is the midpoint between the greatest bfloat16 and 2^128. */
  lemma ThresholdIsMidpoint()
    ensures OverflowThreshold() == Mag(0x7F7F_0000) + 0x8000 * Ulp(254)
  {
    hide Mag, Ulp, Pow2;
    TopMagnitude();
    Pow2Of24And15();
    Pow2Add(24, 253);
    Pow2Add(15, 253);
  }

  lemma TopMagnitude()
    ensures Ulp(254) == Pow2(253) && Mag(0x7F7F_0000) == 0xFF_0000 * Pow2(253)
  {
    hide Pow2;
    assert 0x7F7F_0000 / HIDDEN == 254 && 0x7F7F_0000 % HIDDEN == 0x7F_0000;
  }

  lemma MagZero()
    ensures Mag(0) == 0
  {
  }

  lemma Pow2Of24And15()
    ensures Pow2(24) == 0x100_0000 && Pow2(15) == 0x8000
  {
    assert Pow2(5) == 32;
    assert Pow2(10) == 32 * Pow2(5) by { Pow2Add(5, 5); }
    assert Pow2(15) == 32 * Pow2(10) by { Pow2Add(5, 10); }
    assert Pow2(20) == 32 * Pow2(15) by { Pow2Add(5, 15); }
    assert Pow2(4) == 16;
    assert Pow2(24) == 16 * Pow2(20) by { Pow2Add(4, 20); }
  }

  lemma OverflowsExactly(p: nat)
    requires p < INF
    ensures Mag(p) >= OverflowThreshold() <==> RoundedPattern(p) == INF
  {
    hide Mag, Ulp, OverflowThreshold;
    ThresholdIsMidpoint();
    var top := 0x7F7F_0000;
    if p < top {
      MagGrows(p, top);
      assert p - p % HALF <= top - HALF;
    } else {
      assert p - p % HALF == top && top / HIDDEN == 254 && (p / HALF) % 2 == 1;
      MagInSpan(p);
      StepsCompare(p % HALF, 0x8000, Ulp(254));
    }
  }

  /** Among sign-free bfloat16 patterns none is nearer than the one picked. */
  lemma PickIsNearest(p: nat, b: nat)
    requires p < INF && b % HALF == 0 && b <= INF
    ensures var r := RoundedPattern(p);
      && Abs(Mag(r) - Mag(p)) <= Abs(Mag(b) - Mag(p))
      && (Abs(Mag(r) - Mag(p)) == Abs(Mag(b) - Mag(p)) ==> b == r || (r / HALF) % 2 == 0)
  {
    hide Mag;
    var low := p - p % HALF;
    var up := low + HALF;
    NeighbourDistances(p);
    assert b <= low || up <= b;
    if b <= low { MagGrowsByHalves(b, low); } else { MagGrowsByHalves(up, b); }
    assert low / HALF == p / HALF && up / HALF == p / HALF + 1;
  }

  /** Rounding is round-to-nearest-even, for every finite pattern. */
  lemma RoundsToNearestEven(x: U32)
    requires IsFinite(x)
    ensures RoundsTo(x, RoundHi(x))
  {
    hide Mag, RoundHi, OverflowThreshold;
    var p := x % SIGN;
    var r := RoundHi(x);
    var rp := RoundedPattern(p);
    FormulaPicks(x);
    OverflowsExactly(p);
    assert x == p || x == p + SIGN;
    assert r % SIGN == rp;
    assert r % HALF == rp % HALF && rp % HALF == 0;
    if Mag(p) < OverflowThreshold() {
      forall b: U32 | IsBf16(b) && IsFinite(b)
        ensures Abs(Value(r) - Value(x)) <= Abs(Value(b) - Value(x))
        ensures Abs(Value(r) - Value(x)) == Abs(Value(b) - Value(x)) ==> Value(b) == Value(r) || EvenPattern(r)
      {
        NearestWithSigns(x, b);
      }
    }
  }

  lemma NearestWithSigns(x: U32, b: U32)
    requires IsFinite(x) && IsFinite(RoundHi(x))
    requires IsBf16(b) && IsFinite(b)
    ensures var r := RoundHi(x);
      && Abs(Value(r) - Value(x)) <= Abs(Value(b) - Value(x))
      && (Abs(Value(r) - Value(x)) == Abs(Value(b) - Value(x)) ==> Value(b) == Value(r) || EvenPattern(r))
  {
    hide Mag, RoundHi, RoundedPattern;
    var p, q := x % SIGN, b % SIGN;
    FormulaPicks(x);
    PickIsNearest(p, q);
    PickIsNearest(p, 0);
    MagZero();
    PatternSign(x);
    PatternSign(b);
    PatternSign(RoundHi(x));
    DropSign(RoundHi(x));
  }

  lemma PatternSign(u: U32)
    ensures u == u % SIGN + (if u < SIGN then 0 else SIGN)
    ensures Value(u) == if u < SIGN then Mag(u % SIGN) else -(Mag(u % SIGN) as int)
  {
  }

  lemma DropSign(u: U32)
    ensures EvenPattern(u) <==> ((u % SIGN) / HALF) % 2 == 0
  {
    assert u / HALF == (u % SIGN) / HALF + (u / SIGN) * 0x8000;
  }

  /** Infinities are kept. */
  lemma InfinityStays(u: U32)
    requires u % SIGN == INF
    ensures RoundHi(u) == u
  {
    hide RoundHi;
    FormulaPicks(u);
  }

  /** A NaN stays a NaN of the same sign, becomes quiet and fits bfloat16. */
  lemma NaNStaysQuiet(u: U32)
    requires IsNaN(u)
    ensures var r := RoundHi(u);
      IsNaN(r) && IsBf16(r) && (r / QUIET) % 2 == 1 && (r < SIGN <==> u < SIGN)
  {
    var q := SetQuiet(u);
    assert (q / QUIET) % 2 == 1;
    assert q - q % HALF == (q / HALF) * HALF;
    assert (q / HALF) / 64 == q / QUIET;
  }

  /** A pattern is fixed by rounding exactly when it already is a bfloat16 (and quiet, if NaN). */
  lemma FixedPoints(u: U32)
    ensures RoundHi(u) == u <==> IsBf16(u) && (IsNaN(u) ==> (u / QUIET) % 2 == 1)
  {
    if IsNaN(u) {
      NaNStaysQuiet(u);
    } else {
      FormulaPicks(u);
    }
  }

  /** The storage check: bfloat16 patterns, and any NaN. */
  predicate Bf16Exact(us: seq<U32>) {
    forall i :: 0 <= i < |us| ==> us[i] % HALF == 0 || IsNaN(us[i])
  }

  /** It accepts exactly the arrays that rounding leaves alone, NaNs aside. */
  lemma ExactIffRoundingKeeps(us: seq<U32>)
    ensures Bf16Exact(us) <==> forall i :: 0 <= i < |us| ==> RoundHi(us[i]) == us[i] || IsNaN(us[i])
  {
    hide RoundHi, IsNaN;
    forall i | 0 <= i < |us|
      ensures us[i] % HALF == 0 || IsNaN(us[i]) <==> RoundHi(us[i]) == us[i] || IsNaN(us[i])
    {
      FixedPoints(us[i]);
    }
  }

  /** A NaN with low bits passes the check, and rounding changes it. */
  lemma ExactAcceptsWideNaN()
    ensures Bf16Exact([INF + 1]) && RoundHi(INF + 1) != INF + 1
  {
    FixedPoints(INF + 1);
  }

  lemma RoundingIsIdempotent(u: U32)
    ensures RoundHi(RoundHi(u)) == RoundHi(u)
  {
    if IsNaN(u) {
      NaNStaysQuiet(u);
    } else {
      FormulaPicks(u);
      var r := RoundHi(u);
      assert r % SIGN == RoundedPattern(u % SIGN);
      assert r % HALF == 0;
    }
    FixedPoints(RoundHi(u));
  }

  lemma PickIsMonotone(p: nat, q: nat)
    requires p <= q <= INF
    ensures RoundedPattern(p) <= RoundedPattern(q)
  {
    if p / HALF == q / HALF {
      assert p % HALF <= q % HALF;
    } else {
      assert p - p % HALF + HALF <= q - q % HALF;
    }
  }

  /** Rounding respects the order of all non-NaN values, infinities included. */
  lemma RoundingIsMonotone(x: U32, y: U32)
    requires !IsNaN(x) && !IsNaN(y) && Value(x) <= Value(y)
    ensures Value(RoundHi(x)) <= Value(RoundHi(y))
  {
    hide Mag, RoundHi;
    var p, q := x % SIGN, y % SIGN;
    FormulaPicks(x);
    FormulaPicks(y);
    if x < SIGN && y < SIGN {
      if q < p { MagGrows(q, p); }
      PickIsMonotone(p, q);
      MagAtMost(RoundedPattern(p), RoundedPattern(q));
    } else if x >= SIGN && y >= SIGN {
      if p < q { MagGrows(p, q); }
      PickIsMonotone(q, p);
      MagAtMost(RoundedPattern(q), RoundedPattern(p));
    } else if x < SIGN {
      // a nonnegative value at most a nonpositive one: both are zero
      assert Mag(p) == 0 && Mag(q) == 0;
      MagZero();
      if p > 0 { MagGrows(0, p); }
      if q > 0 { MagGrows(0, q); }
    }
  }

  lemma MagAtMost(a: nat, b: nat)
    requires a <= b <= INF
    ensures Mag(a) <= Mag(b)
  {
    if a < b { MagGrows(a, b); }
  }

  // ---------------------------------------------------------------- the array loops

  const CHUNK := 0x100_0000

  /** Rounds one array into a new one, a bounded piece at a time. */
  method RoundBf16(x: array<U32>) returns (out: array<U32>)
    ensures fresh(out) && out.Length == x.Length
    ensures forall k :: 0 <= k < x.Length ==> out[k] == RoundHi(x[k])
  {
    out := new U32[x.Length];
    var i := 0;
    while i < x.Length
      invariant 0 <= i
      invariant forall k :: 0 <= k < x.Length && k < i ==> out[k] == RoundHi(x[k])
    {
      var end := if i + CHUNK < x.Length then i + CHUNK else x.Length;
      for k := i to end
        invariant forall j :: 0 <= j < k ==> out[j] == RoundHi(x[j])
      {
        out[k] := RoundHi(x[k]);
      }
      i := i + CHUNK;
    }
  }

  /** The 2-byte storage: the high halves of the rounded patterns, which lose nothing. */
  method Bf16Bits(x: array<U32>) returns (out: array<nat>)
    ensures fresh(out) && out.Length == x.Length
    ensures forall k :: 0 <= k < x.Length ==> out[k] < HALF && out[k] * HALF == RoundHi(x[k])
  {
    out := new nat[x.Length];
    var i := 0;
    while i < x.Length
      invariant 0 <= i
      invariant forall k :: 0 <= k < x.Length && k < i ==> out[k] < HALF && out[k] * HALF == RoundHi(x[k])
    {
      var end := if i + CHUNK < x.Length then i + CHUNK else x.Length;
      for k := i to end
        invariant forall j :: 0 <= j < k ==> out[j] < HALF && out[j] * HALF == RoundHi(x[j])
      {
        RoundedIsBf16(x[k]);
        out[k] := RoundHi(x[k]) / HALF;
      }
      i := i + CHUNK;
    }
  }

  lemma RoundedIsBf16(u: U32)
    ensures IsBf16(RoundHi(u))
  {
    RoundingIsIdempotent(u);
    FixedPoints(RoundHi(u));
  }
}
