/** Choosing between the builder's block and the local one. */
module Selection {
  import opened Payload
  import opened Arithmetic
  import opened Float64

  datatype Policy = GasUsed

  datatype Source = L2 | Builder

  /** The double nearest to 0.1 is this over 2^55 (TenthIsNearest). */
  const TENTH := 3602879701896397

  /** The largest L2 gas for which the test is exact: the first multiple of ten above 2^53. */
  const EXACT_LIMIT := TWO_TO_53 + 8

  /** builder as f64 < l2 as f64 * 0.1: both casts and the product round; the comparison is exact. */
  predicate BelowTenth(builder: nat, l2: nat) {
    Round(builder) * TWO_TO_55 < Round(Round(l2) * TENTH)
  }

  function SelectBlock(policy: Policy, builder: Envelope, l2: Envelope): (Envelope, Source) {
    match policy
    case GasUsed => if BelowTenth(builder.GasUsed(), l2.GasUsed()) then (l2, L2) else (builder, Builder)
  }

  lemma NearestMultiple(m: nat)
    ensures 4 <= Abs(10 * m - 2 * TWO_TO_55)
  {
    var gap := 10 * m - 2 * TWO_TO_55;
    assert gap % 10 == 4;
  }

  lemma FinerIsFarther(m: nat, u: nat)
    requires m < TWO_TO_53 && u >= 2
    ensures 4 * u <= Abs(10 * m - 2 * TWO_TO_55 * u)
  {
    assert 2 * TWO_TO_55 * u - 4 * u == (2 * TWO_TO_55 - 4) * u >= (2 * TWO_TO_55 - 4) * 2;
  }

  /** The constant is the rounding of 0.1: with significand 2 * TENTH over 2^56 it is off by 2^-55 / 5, and
      no double is nearer, neither a multiple of 2^-56 nor a finer number with a 53-bit significand. */
  lemma TenthIsNearest(significand: nat, finer: nat)
    requires finer > 0 ==> significand < TWO_TO_53
    ensures TWO_TO_52 <= 2 * TENTH < TWO_TO_53 && 10 * (2 * TENTH) - 2 * TWO_TO_55 == 4
    ensures Abs(10 * (2 * TENTH) - 2 * TWO_TO_55) * Pow2(finer) <= Abs(10 * significand - 2 * TWO_TO_55 * Pow2(finer))
  {
    if finer == 0 {
      assert Pow2(0) == 1;
      NearestMultiple(significand);
    } else {
      assert Pow2(finer) == 2 * Pow2(finer - 1);
      FinerIsFarther(significand, Pow2(finer));
    }
  }

  lemma SmallExcess(n: nat, k: nat, r: nat)
    requires n == k * Unit(n) + r && 2 * r < Unit(n)
    ensures Round(n) == k * Unit(n)
  {
    Remainder(n, Unit(n), k, r);
  }

  lemma UnitOfExcess(b: nat)
    requires 0 < b <= TWO_TO_53 / 8
    ensures 4 * b < Unit(b * TWO_TO_55 + 2 * b) < TWO_TO_55
  {
  }

  /** A product that is exactly a tenth of the gas, but for the error in 0.1, rounds back to it. */
  lemma ExactTenth(b: nat)
    requires b <= TWO_TO_53 / 8
    ensures Round(10 * b * TENTH) == b * TWO_TO_55
  {
    var n := b * TWO_TO_55 + 2 * b;
    assert 10 * b * TENTH == n;
    if b == 0 {
      RoundExact(0);
    } else {
      UnitOfExcess(b);
      Pow2Values();
      UnitStep(n, 55);
      var e := Exponent(n);
      Coarser(b, 55, e);
      SmallExcess(n, b * Pow2(55 - e), 2 * b);
    }
  }

  /** Rounding never moves a number past one that is a multiple of its unit. */
  lemma RoundBelow(n: nat, b: nat)
    requires n < b * TWO_TO_55 && b <= TWO_TO_53
    ensures Round(n) <= b * TWO_TO_55
  {
    var bound := b * TWO_TO_55;
    Pow2Values();
    assert Abs(Round(n) - n) <= bound - n by {
      if b < TWO_TO_53 {
        RoundIsNearestEven(n, b, 55);
      } else {
        RoundIsNearestEven(n, 1, 108);
        Pow2Split(55, 108);
      }
    }
  }

  lemma AboveTenth(b: nat, l: nat)
    requires 10 * b < l <= EXACT_LIMIT
    ensures Round(l * TENTH) > b * TWO_TO_55
  {
    var n := l * TENTH;
    assert 10 * n == l * TWO_TO_55 + 2 * l;
    var u := Unit(n);
    ToMultipleError(n, u);
    Pow2Values();
    assert u < Pow2(53);
    UnitStep(n, 53);
  }

  /** The test on L2 gas that the cast leaves as it is. */
  lemma ExactWhenRepresentable(builder: nat, l2: nat)
    requires l2 <= EXACT_LIMIT && Round(l2) == l2
    ensures BelowTenth(builder, l2) <==> 10 * builder < l2
  {
    var n := l2 * TENTH;
    assert 10 * n == l2 * TWO_TO_55 + 2 * l2;
    if builder > TWO_TO_53 {
      RoundError(builder);
      assert Round(builder) >= TWO_TO_53 by {
        RoundIsNearestEven(builder, TWO_TO_52, 1);
        assert Pow2(1) == 2 * Pow2(0);
      }
      RoundBelow(n, TWO_TO_53);
    } else {
      RoundExact(builder);
      if 10 * builder < l2 {
        AboveTenth(builder, l2);
      } else if 10 * builder == l2 {
        ExactTenth(builder);
        assert 10 * builder * TENTH == n;
      } else {
        RoundBelow(n, builder);
      }
    }
  }

  /** Just above 2^53 the cast moves odd gas to a neighbour, but not past a multiple of ten. */
  lemma CastNearLimit(l2: nat)
    requires TWO_TO_53 < l2 <= EXACT_LIMIT
    ensures TWO_TO_53 <= Round(l2) <= EXACT_LIMIT && Round(Round(l2)) == Round(l2)
  {
    assert Pow2(1) == 2 * Pow2(0);
    forall n: nat | TWO_TO_53 <= n <= EXACT_LIMIT
      ensures Unit(n) == 2
    {
      assert Exponent(n / 2) == 0 && Exponent(n) == 1;
    }
    ToMultipleError(l2, 2);
    var r := Round(l2);
    assert r % 2 == 0;
    assert ToMultiple(r, 2) == r;
  }

  lemma SameTest(builder: nat, l2: nat)
    requires Round(Round(l2)) == Round(l2)
    ensures BelowTenth(builder, l2) == BelowTenth(builder, Round(l2))
  {
  }

  /** No multiple of ten lies between 2^53 and the limit. */
  lemma SameTenth(b: nat, m: nat, n: nat)
    requires TWO_TO_53 <= m <= EXACT_LIMIT && TWO_TO_53 <= n <= EXACT_LIMIT
    ensures 10 * b < m <==> 10 * b < n
  {
  }

  /** The floating-point test, with 0.1 as the nearest double (TenthIsNearest), is exact for L2 blocks of up
      to 9007199254741000 gas, whatever the builder's gas: it picks the L2 block exactly when the builder's
      block uses less than a tenth of its gas. One more unit of gas and it is not (InexactBeyond). */
  lemma SelectionIsExact(builder: nat, l2: nat)
    requires l2 <= EXACT_LIMIT
    ensures BelowTenth(builder, l2) <==> 10 * builder < l2
  {
    if l2 <= TWO_TO_53 {
      RoundExact(l2);
      ExactWhenRepresentable(builder, l2);
    } else {
      CastNearLimit(l2);
      ExactWhenRepresentable(builder, Round(l2));
      SameTest(builder, l2);
      SameTenth(builder, l2, Round(l2));
    }
  }

  /** For gas of any size the test is off by less than one part in 2^50: outside that margin it decides
      as the integers do. */
  lemma SelectionMargin(builder: nat, l2: nat)
    ensures 10 * builder * TWO_TO_50 < l2 * (TWO_TO_50 - 1) ==> BelowTenth(builder, l2)
    ensures 10 * builder * TWO_TO_50 >= l2 * (TWO_TO_50 + 1) ==> !BelowTenth(builder, l2)
  {
    var b, l := Round(builder), Round(l2);
    var n := l * TENTH;
    RoundError(builder);
    RoundError(l2);
    RoundError(n);
  }

  /** The limit is tight. At the next gas value ten times the builder's gas is less than the L2 block's, but
      the cast of the L2 gas drops the difference. */
  lemma InexactBeyond()
    ensures 10 * 900719925474100 < EXACT_LIMIT + 1
    ensures !BelowTenth(900719925474100, EXACT_LIMIT + 1)
  {
    var b, l := 900719925474100, EXACT_LIMIT + 1;
    RoundExact(b);
    assert Exponent(l / 2) == 0 && Exponent(l) == 1;
    assert Unit(l) == 2 by { assert Pow2(1) == 2 * Pow2(0); }
    assert Round(l) == 10 * b;
    ExactTenth(b);
  }

  /** The cast of the builder's gas loses units too: here ten times the builder's gas is less than the L2
      block's, which is exact, but the cast raises the builder's gas to the rounded tenth. */
  lemma BuilderCastLoses()
    ensures var b, l2 := TWO_TO_53 + 3, 10 * TWO_TO_53 + 32;
            10 * b < l2 && Round(l2) == l2 && !BelowTenth(b, l2)
  {
    var b, l2 := TWO_TO_53 + 3, 10 * TWO_TO_53 + 32;
    assert Pow2(1) == 2 && Pow2(4) == 16;
    ExponentIs(b, 1);
    assert Round(b) == TWO_TO_53 + 4;
    ExponentIs(l2, 4);
    assert Round(l2) == l2;
    var n := l2 * TENTH;
    Pow2Values();
    assert Pow2(56) == 2 * TWO_TO_55;
    ExponentIs(n, 56);
    var u := 2 * TWO_TO_55;
    Remainder(n, u, TWO_TO_52 + 1, n - (TWO_TO_52 + 1) * u);
    assert Round(n) == (TWO_TO_52 + 2) * u;
  }
}
