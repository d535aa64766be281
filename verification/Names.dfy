/** Names the rewriters make up. */
module Names {

  function Digit(n: nat): char
    requires n < 10
  {
    "0123456789"[n]
  }

  function Decimal(n: int): string
    decreases if n < 0 then 1 - n else n
  {
    if n < 0 then "-" + Decimal(-n)
    else (if n < 10 then "" else Decimal(n / 10)) + [Digit(n % 10)]
  }

  /** `x.tile_3` */
  function TileName(base: string, t: nat): string { base + ".tile_" + Decimal(t) }

  lemma DigitInjective(a: nat, b: nat)
    requires a < 10 && b < 10 && Digit(a) == Digit(b)
    ensures a == b
  {
  }

  lemma {:induction false} DecimalHasNoUnderscore(n: nat)
    ensures |Decimal(n)| >= 1 && '_' !in Decimal(n)
  {
    if n >= 10 {
      DecimalHasNoUnderscore(n / 10);
    }
  }

  lemma {:induction false} DecimalInjective(a: nat, b: nat)
    requires Decimal(a) == Decimal(b)
    ensures a == b
  {
    var s := Decimal(a);
    DecimalHasNoUnderscore(a);
    if a >= 10 { DecimalHasNoUnderscore(a / 10); }
    if b >= 10 { DecimalHasNoUnderscore(b / 10); }
    assert s[|s| - 1] == Digit(a % 10) == Digit(b % 10);
    DigitInjective(a % 10, b % 10);
    if a >= 10 && b >= 10 {
      assert s[..|s| - 1] == Decimal(a / 10) == Decimal(b / 10);
      DecimalInjective(a / 10, b / 10);
    }
  }

  lemma MarkInTail(x: string, p: string, y: string, q: string)
    requires x + "_" + p == y + "_" + q
    ensures |p| < |q| ==> '_' in q
    ensures |p| == |q| ==> x == y && p == q
  {
    var name := x + "_" + p;
    if |p| < |q| {
      assert name[|x|] == '_';
      assert (y + "_" + q)[|x|] == q[|x| - |y| - 1];
    }
    if |p| == |q| {
      assert x == name[..|x|] && p == name[|x| + 1..];
    }
  }

  /** Names of different tiles differ, whatever tensors they are tiles of. */
  lemma TileNamesDiffer(a: string, s: nat, b: string, t: nat)
    requires TileName(a, s) == TileName(b, t)
    ensures a == b && s == t
  {
    var p, q := Decimal(s), Decimal(t);
    DecimalHasNoUnderscore(s);
    DecimalHasNoUnderscore(t);
    hide Decimal;
    var x, y := a + ".tile", b + ".tile";
    assert TileName(a, s) == x + "_" + p && TileName(b, t) == y + "_" + q;
    MarkInTail(x, p, y, q);
    MarkInTail(y, q, x, p);
    assert a == x[..|x| - 5] && b == y[..|y| - 5];
    DecimalInjective(s, t);
  }
}
