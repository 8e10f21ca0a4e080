/** Rounding to a 53-bit significand, nearest with ties to even, on integers. A double in the range used
    here is an integer multiple of a fixed power of two, so scaling by that power makes every value an
    integer; values stay far from overflow and from subnormal numbers. */
module Float64 {
  import opened Arithmetic

  const TWO_TO_50 := 0x4_0000_0000_0000
  const TWO_TO_52 := 0x10_0000_0000_0000
  const TWO_TO_53 := 0x20_0000_0000_0000
  const TWO_TO_55 := 0x80_0000_0000_0000

  function Pow2(e: nat): (r: nat)
    ensures r > 0
  {
    if e == 0 then 1 else 2 * Pow2(e - 1)
  }

  /** The least exponent whose unit leaves at most 53 significant bits. */
  function Exponent(n: nat): (e: nat)
    ensures n < TWO_TO_53 * Pow2(e)
    ensures e > 0 ==> n >= TWO_TO_52 * Pow2(e)
  {
    if n < TWO_TO_53 then 0 else 1 + Exponent(n / 2)
  }

  /** The unit in the last place of n. */
  function Unit(n: nat): (u: nat)
    ensures u > 0 && n < TWO_TO_53 * u
    ensures u > 1 ==> n >= TWO_TO_52 * u
  {
    Pow2(Exponent(n))
  }

  /** The nearest multiple of u, ties to the even one. */
  function ToMultiple(n: nat, u: nat): nat
    requires u > 0
  {
    var q, r := n / u, n % u;
    if 2 * r > u || (2 * r == u && q % 2 == 1) then (q + 1) * u else q * u
  }

  function Round(n: nat): nat {
    ToMultiple(n, Unit(n))
  }

  function Abs(x: int): nat {
    if x < 0 then -x else x
  }

  lemma ToMultipleError(n: nat, u: nat)
    requires u > 0
    ensures 2 * Abs(ToMultiple(n, u) - n) <= u
  {
    DivMod(n, u);
    assert (n / u + 1) * u == n / u * u + u;
  }

  /** Nothing between two neighbouring multiples is nearer than the one chosen. */
  lemma ToMultipleNearest(n: nat, u: nat, k: nat)
    requires u > 0
    ensures Abs(ToMultiple(n, u) - n) <= Abs(k * u - n)
  {
    DivMod(n, u);
    var q := n / u;
    assert (q + 1) * u == q * u + u;
    if k <= q {
      MulMonotone(k, q, u);
    } else {
      MulMonotone(q + 1, k, u);
    }
  }

  lemma {:induction false} Pow2Split(a: nat, b: nat)
    requires a <= b
    ensures Pow2(b) == Pow2(b - a) * Pow2(a)
    decreases a
  {
    if a == 0 {
    } else {
      Pow2Split(a - 1, b);
      assert Pow2(b - a + 1) == 2 * Pow2(b - a);
      assert Pow2(a) == 2 * Pow2(a - 1);
    }
  }

  /** A number no finer than the unit of n is a multiple of it. */
  lemma Coarser(significand: nat, e: nat, x: nat)
    requires x <= e
    ensures significand * Pow2(e) == significand * Pow2(e - x) * Pow2(x)
  {
    Pow2Split(x, e);
    MulAssociative(significand, Pow2(e - x), Pow2(x));
  }

  /** A 53-bit number finer than the unit of n lies below the least multiple with 53 bits. */
  lemma Finer(significand: nat, e: nat, x: nat)
    requires significand < TWO_TO_53 && e < x
    ensures significand * Pow2(e) <= TWO_TO_52 * Pow2(x)
  {
    var half := Pow2(x - 1);
    Pow2Split(e, x - 1);
    MulMonotone(1, Pow2(x - 1 - e), Pow2(e));
    MulMonotone(Pow2(e), half, significand);
    MulMonotone(significand, TWO_TO_53, half);
  }

  lemma TiesToEven(n: nat, u: nat)
    requires u > 0 && 2 * (n % u) == u
    ensures ToMultiple(n, u) / u % 2 == 0
  {
    var q := n / u;
    var k := if q % 2 == 1 then q + 1 else q;
    assert ToMultiple(n, u) == k * u;
    Remainder(k * u, u, k, 0);
  }

  /** Round is the rounding of section 4.3.1 of IEEE 754-2019: no number with a 53-bit significand is
      nearer, and of two equally near ones the even significand is taken. */
  lemma RoundIsNearestEven(n: nat, significand: nat, e: nat)
    requires significand < TWO_TO_53
    ensures Abs(Round(n) - n) <= Abs(significand * Pow2(e) - n)
    ensures 2 * (n % Unit(n)) == Unit(n) ==> Round(n) / Unit(n) % 2 == 0
  {
    var u, x := Unit(n), Exponent(n);
    if e >= x {
      Coarser(significand, e, x);
      ToMultipleNearest(n, u, significand * Pow2(e - x));
    } else {
      Finer(significand, e, x);
      ToMultipleNearest(n, u, TWO_TO_52);
    }
    if 2 * (n % u) == u {
      TiesToEven(n, u);
    }
  }

  /** The exponent of a number between two powers. */
  lemma {:induction false} ExponentIs(n: nat, e: nat)
    requires n < TWO_TO_53 * Pow2(e) && (e > 0 ==> n >= TWO_TO_52 * Pow2(e))
    ensures Exponent(n) == e
    decreases e
  {
    if e == 0 {
    } else {
      assert Pow2(e) == 2 * Pow2(e - 1);
      ExponentIs(n / 2, e - 1);
    }
  }

  /** Integers up to 2^53 are exact. */
  lemma RoundExact(n: nat)
    requires n <= TWO_TO_53
    ensures Round(n) == n
  {
    if n < TWO_TO_53 {
      assert Unit(n) == Pow2(0) == 1;
      assert n / 1 == n && n % 1 == 0;
    } else {
      assert Exponent(n / 2) == 0 && Exponent(n) == 1;
      assert Pow2(1) == 2 * Pow2(0) == 2;
    }
  }

  /** The relative error of rounding is at most 2^-53. */
  lemma RoundError(n: nat)
    ensures TWO_TO_53 * Abs(Round(n) - n) <= n
  {
    var u := Unit(n);
    ToMultipleError(n, u);
    if u == 1 {
      RoundExact(n);
    }
  }

  /** A power of two below 2^k is at most half of it. */
  lemma UnitStep(n: nat, k: nat)
    requires Unit(n) < Pow2(k)
    ensures Exponent(n) < k
    ensures 2 * Unit(n) <= Pow2(k)
  {
    var e := Exponent(n);
    if e >= k {
      Pow2Split(k, e);
      MulMonotone(1, Pow2(e - k), Pow2(k));
      assert false;
    }
    Pow2Split(e + 1, k);
    MulMonotone(1, Pow2(k - e - 1), Pow2(e + 1));
  }

  lemma Pow2Values()
    ensures Pow2(53) == TWO_TO_53 && Pow2(55) == TWO_TO_55
  {
    assert Pow2(10) == 1024;
    Pow2Split(10, 20);
    Pow2Split(20, 40);
    Pow2Split(10, 50);
    Pow2Split(40, 50);
    assert Pow2(50) == 1024 * (1024 * 1024 * 1024 * 1024);
    assert Pow2(53) == 8 * Pow2(50);
    assert Pow2(55) == 4 * Pow2(53);
  }
}
