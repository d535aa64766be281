/** Element counts of tensor shapes. */
module Shapes {

  function Numel(shape: seq<int>): int {
    if shape == [] then 1 else Numel(shape[..|shape| - 1]) * shape[|shape| - 1]
  }

  /** Counts multiply, so a shape has as many elements as it has index tuples. */
  lemma {:induction false} NumelMultiplies(a: seq<int>, b: seq<int>)
    ensures Numel(a + b) == Numel(a) * Numel(b) && Numel([]) == 1 && forall x :: Numel([x]) == x
    decreases |b|
  {
    forall x
      ensures Numel([x]) == x
    {
      assert [x][..0] == [];
    }
    if b == [] {
      assert a + b == a;
    } else {
      var n := |b| - 1;
      assert (a + b)[..|a + b| - 1] == a + b[..n];
      NumelMultiplies(a, b[..n]);
      assert Numel(a) * Numel(b[..n]) * b[n] == Numel(a) * (Numel(b[..n]) * b[n]);
    }
  }
}
