/** The smaller and the larger of two integers, and multiples of a real by a natural number, kept linear for the proofs that
    add them up. */
module Numbers {

  function Min(a: int, b: int): int { if a < b then a else b }

  function Max(a: int, b: int): int { if a < b then b else a }

  /** `x` added up `n` times. */
  function Multiple(x: real, n: nat): real {
    if n == 0 then 0.0 else Multiple(x, n - 1) + x
  }

  lemma OneMoreTimes(x: real, n: nat)
    ensures x * (n + 1) as real == x * n as real + x
  {
    assert (n + 1) as real == n as real + 1.0;
  }

  lemma {:induction false} MultipleIsProduct(x: real, n: nat)
    ensures Multiple(x, n) == x * n as real
  {
    if n > 0 {
      MultipleIsProduct(x, n - 1);
      OneMoreTimes(x, n - 1);
    }
  }
}
