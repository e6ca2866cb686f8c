/**
 * The run-time support routine that compiled programs call for `**`
 * (runtime.c `__l_pow`), on 64-bit unsigned integers.
 */
module Runtime {
  /** 2^64: `uint64_t` arithmetic is modulo this. */
  const U64: nat := 0x1_0000_0000_0000_0000

  /** x to the power n, on unbounded naturals. */
  function Power(x: nat, n: nat): nat {
    if n == 0 then 1 else x * Power(x, n - 1)
  }

  /** Reducing the left factor of a product modulo 2^64 does not change the product modulo 2^64. */
  lemma MulModLeft(a: nat, b: nat)
    ensures (a % U64) * b % U64 == a * b % U64
  {
    var q := a / U64;
    var r := a % U64;
    assert a == q * U64 + r;
    assert a * b == (q * b) * U64 + r * b;
  }

  /**
   * `__l_pow`: multiplies `x` into the result `n` times, each product wrapping
   * to 64 bits; the result is x^n modulo 2^64.
   */
  method LPow(x: nat, n: nat) returns (result: nat)
    requires x < U64 && n < U64
    ensures result < U64
    ensures result == Power(x, n) % U64
  {
    result := 1;
    var k: nat := n;
    while k != 0
      invariant k <= n
      invariant result == Power(x, n - k) % U64
      decreases k
    {
      k := k - 1;
      MulModLeft(Power(x, n - k - 1), x);
      assert Power(x, n - k) == x * Power(x, n - k - 1);
      result := result * x % U64;
    }
  }

  /** Exponents add: x^(a+b) == x^a * x^b. */
  lemma {:induction false} PowerAdd(x: nat, a: nat, b: nat)
    ensures Power(x, a + b) == Power(x, a) * Power(x, b)
  {
    if a > 0 {
      PowerAdd(x, a - 1, b);
      assert Power(x, a + b) == x * Power(x, a - 1 + b);
    }
  }

  /**
   * The wrapped power obeys the exponent law of the 64-bit ring: computing
   * x^(a+b) agrees with multiplying the wrapped x^a and x^b and wrapping.
   */
  lemma WrappedPowerAdds(x: nat, a: nat, b: nat)
    ensures Power(x, a + b) % U64 == (Power(x, a) % U64) * (Power(x, b) % U64) % U64
  {
    PowerAdd(x, a, b);
    MulModLeft(Power(x, a), Power(x, b));
    MulModLeft(Power(x, b), Power(x, a) % U64);
  }
}
