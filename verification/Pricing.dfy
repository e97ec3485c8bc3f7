// Volumes, limits and prices: bytes, gigabytes and whole tomans.
module Pricing {

  const GIB := 1073741824

  /** Half-up rounding of num / den to a whole number. */
  function RoundHalfUp(num: nat, den: nat): nat
    requires den > 0
  {
    (2 * num + den) / (2 * den)
  }

  /** The charge for raising a limit by this many bytes at a price per GB. */
  function ChargeAmount(bytes: nat, price: nat): nat {
    RoundHalfUp(bytes * price, GIB)
  }

  /** Rounding moves a value by at most half a unit. */
  lemma {:induction false} RoundingError(num: nat, den: nat)
    requires den > 0
    ensures 2 * den * RoundHalfUp(num, den) - den <= 2 * num < 2 * den * RoundHalfUp(num, den) + den
  {
    var n, d := 2 * num + den, 2 * den;
    assert n == d * (n / d) + n % d;
  }

  /** Whole gigabytes, of 1024 times 1024 times 1024 bytes, cost exactly their price. */
  lemma {:induction false} WholeGigabytes(gigabytes: nat, price: nat)
    ensures ChargeAmount(gigabytes * (1024 * 1024 * 1024), price) == gigabytes * price
  {
    var x := gigabytes * price;
    assert gigabytes * GIB * price == x * GIB;
    RoundingError(x * GIB, GIB);
  }
}
