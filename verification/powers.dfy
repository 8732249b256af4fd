/** Powers of two: the side lengths on which the subdivision recursion is defined. */
module Powers {

  /** True when n is 2^k for some k >= 0. */
  predicate IsPow2(n: int)
    decreases if n > 0 then n else 0
  {
    n == 1 || (n > 1 && n % 2 == 0 && IsPow2(n / 2))
  }

  /** 2^k. */
  function Pow2(k: nat): (p: int)
    ensures p >= 1 && IsPow2(p)
  {
    if k == 0 then 1
    else
      assert (2 * Pow2(k - 1)) % 2 == 0 && (2 * Pow2(k - 1)) / 2 == Pow2(k - 1);
      2 * Pow2(k - 1)
  }

  /** The exponent of a power of two. */
  function Log2(n: int): (k: nat)
    requires IsPow2(n)
    ensures Pow2(k) == n
    decreases if n > 0 then n else 0
  {
    if n == 1 then 0
    else
      var k := 1 + Log2(n / 2);
      assert Pow2(k) == 2 * Pow2(k - 1) == 2 * (n / 2) == n;
      k
  }

  /** A power of two of at least 2 is even and halves to a power of two. */
  lemma HalvePow2(n: int)
    requires IsPow2(n) && n >= 2
    ensures n % 2 == 0 && IsPow2(n / 2) && n / 2 >= 1
    ensures Log2(n / 2) + 1 == Log2(n)
  {
  }

  /** Log2 inverts Pow2. */
  lemma {:induction false} Log2OfPow2(k: nat)
    ensures Log2(Pow2(k)) == k
  {
    if k > 0 {
      var p := Pow2(k);
      assert p == 2 * Pow2(k - 1) && p / 2 == Pow2(k - 1);
      Log2OfPow2(k - 1);
    }
  }
}
