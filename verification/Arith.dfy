/** Powers of two and the two rounding macros of freelist.h. */
module Arith {

  function Pow2(k: nat): (r: nat)
    ensures r >= 1
  {
    if k == 0 then 1 else 2 * Pow2(k - 1)
  }

  function RoundUp(x: nat, y: nat): nat
    requires y > 0
  {
    if x % y == 0 then x else x + (y - x % y)
  }

  function RoundDown(x: int, y: nat): int
    requires y > 0
  {
    if x % y == 0 then x else x - x % y
  }

  /** The least k with n <= 2^k: the exact value of ceil(log2(n)). */
  function CeilLog2(n: nat): (k: nat)
    requires n >= 1
    ensures n <= Pow2(k)
    ensures k > 0 ==> Pow2(k - 1) < n
  {
    if n == 1 then 0 else CeilLog2((n + 1) / 2) + 1
  }

  lemma {:induction false} Pow2Monotone(i: nat, j: nat)
    requires i <= j
    ensures Pow2(i) <= Pow2(j)
  {
    if i == j {
    } else {
      Pow2Monotone(i, j - 1);
    }
  }

  /** A quotient and remainder are determined by their defining equation. */
  lemma DivModUnique(n: nat, k: nat, q: nat, r: nat)
    requires k > 0 && r < k && n == k * q + r
    ensures n / k == q && n % k == r
  {
    var d := n / k - q;
    assert k * d == r - n % k;
    MulAtLeast(k, d);
  }

  lemma MulAtLeast(k: nat, d: int)
    ensures d >= 1 ==> k * d >= k
    ensures d <= -1 ==> k * d + k <= 0
  {
  }
}
