/** The bit masks of wrapper.h, on unsigned words as natural numbers. */
module Bits {
  import opened Arith

  function BitAnd(x: nat, y: nat): nat {
    if x == 0 || y == 0 then 0
    else 2 * BitAnd(x / 2, y / 2) + (if x % 2 == 1 && y % 2 == 1 then 1 else 0)
  }

  /** The complement of an n-bit word. */
  function BitNot(x: nat, n: nat): nat
    requires x < Pow2(n)
  {
    Pow2(n) - 1 - x
  }

  ghost predicate IsPow2(x: nat) {
    exists k: nat :: x == Pow2(k)
  }

  /** Division of the low part: x = 2(x/2) + x%2, carried through a power of two. */
  lemma HalfMod(x: nat, k: nat)
    requires k > 0
    ensures x % Pow2(k) == 2 * ((x / 2) % Pow2(k - 1)) + x % 2
  {
    var m := Pow2(k - 1);
    var q, r := (x / 2) / m, (x / 2) % m;
    assert x / 2 == m * q + r;
    assert x == (2 * m) * q + (2 * r + x % 2);
    DivModUnique(x, 2 * m, q, 2 * r + x % 2);
  }

  lemma AndHalf(x: nat, y: nat)
    ensures BitAnd(x, y) == 2 * BitAnd(x / 2, y / 2) + (if x % 2 == 1 && y % 2 == 1 then 1 else 0)
  {
  }

  /** x & (2^k - 1) is the remainder. */
  lemma {:induction false} AndMask(x: nat, k: nat)
    ensures BitAnd(x, Pow2(k) - 1) == x % Pow2(k)
  {
    if k == 0 {
    } else {
      AndMask(x / 2, k - 1);
      HalfMod(x, k);
      hide BitAnd;
      var y := Pow2(k) - 1;
      AndHalf(x, y);
      assert y == 2 * (Pow2(k - 1) - 1) + 1;
      assert y / 2 == Pow2(k - 1) - 1 && y % 2 == 1;
    }
  }

  /** x & ~(2^k - 1) clears the remainder. */
  lemma {:induction false} AndClear(x: nat, k: nat, n: nat)
    requires k <= n && x < Pow2(n)
    ensures Pow2(k) <= Pow2(n)
    ensures BitAnd(x, BitNot(Pow2(k) - 1, n)) == x - x % Pow2(k)
  {
    Pow2Monotone(k, n);
    if k == 0 {
      AndMask(x, n);
      DivModUnique(x, Pow2(n), 0, x);
    } else {
      AndClear(x / 2, k - 1, n - 1);
      HalfMod(x, k);
      hide BitAnd;
      var y, z := BitNot(Pow2(k) - 1, n), BitNot(Pow2(k - 1) - 1, n - 1);
      AndHalf(x, y);
      assert y == 2 * z;
      assert y / 2 == z && y % 2 == 0;
    }
  }

  /** alignment & (alignment - 1) is zero exactly for powers of two. */
  lemma {:induction false} PowerTest(x: nat)
    requires x > 0
    ensures BitAnd(x, x - 1) == 0 <==> IsPow2(x)
  {
    if x == 1 {
      assert x == Pow2(0);
    } else if x % 2 == 0 {
      PowerTest(x / 2);
      assert (x - 1) / 2 == x / 2 - 1;
      if IsPow2(x / 2) {
        var k: nat :| x / 2 == Pow2(k);
        assert x == Pow2(k + 1);
      }
      if IsPow2(x) {
        var k: nat :| x == Pow2(k);
        assert k > 0 && x / 2 == Pow2(k - 1);
      }
    } else {
      SelfAnd(x / 2);
      forall k: nat ensures k > 0 ==> Pow2(k) % 2 == 0 { }
    }
  }

  lemma {:induction false} SelfAnd(x: nat)
    ensures BitAnd(x, x) == x
  {
    if x == 0 {
    } else {
      SelfAnd(x / 2);
    }
  }
}
