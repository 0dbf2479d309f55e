/** Small facts about natural-number arithmetic shared by the models. */
module Arith {

  /** Multiplication by a fixed factor is monotone. */
  lemma {:induction false} MulMono(a: nat, b: nat, e: nat)
    requires a <= b
    ensures a * e <= b * e
    decreases b - a
  {
    if a < b {
      MulMono(a, b - 1, e);
      assert b * e == (b - 1) * e + e;
    }
  }
}
