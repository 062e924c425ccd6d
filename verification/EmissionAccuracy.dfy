/** How far the floors of the fixed-point curve can take it below the exact one. */
module EmissionAccuracy {
  import opened EmissionCurve

  lemma ScaledAdds(m: nat, n: nat)
    ensures Scaled(m + n) == Scaled(m) + Scaled(n)
    ensures m <= n ==> Scaled(m) <= Scaled(n)
  {
    assert (m + n) as real == m as real + n as real;
  }

  /** A floored product is less than one unit below the product. */
  lemma FloorsWithin(a: nat, b: nat)
    ensures Mul(Scaled(a), Scaled(b)) <= Scaled(FixedMul(a, b)) + Scaled(1)
  {
    var p, f := a * b, FixedMul(a, b);
    FixedMulFloors(a, b);
    hide FixedMul;
    var x, one := f as real, ONE as real;
    assert p as real <= x * one + one by { assert (f * ONE) as real == x * one; }
    assert p as real == a as real * b as real;
    assert Scaled(a) * Scaled(b) == (a as real * b as real) / one / one;
    assert p as real / one <= x + 1.0;
    assert Scaled(f) + Scaled(1) == (x + 1.0) / one;
  }

  lemma {:induction false} PowerInUnit(q: real, n: nat)
    requires 0.0 <= q <= 1.0
    ensures 0.0 <= Power(q, n) <= 1.0
  {
    if n > 0 {
      PowerInUnit(q, n - 1);
      hide Mul;
      MulMono(q, Power(q, n - 1), 1.0, 1.0);
      MulDistributes(1.0, 0.0, 0.0);
    }
  }

  /** How far a product falls when its factors do. */
  lemma ProductDrop(x: real, p: real, y: real, t: real, dx: real, dp: real)
    requires 0.0 <= y <= x <= 1.0 && 0.0 <= t <= p <= 1.0 && x - y <= dx && p - t <= dp
    ensures Mul(x, p) - Mul(y, t) <= dx + dp
  {
    assert x * p - y * t == x * (p - t) + (x - y) * t;
    assert x * (p - t) <= p - t by { assert (1.0 - x) * (p - t) >= 0.0; }
    assert (x - y) * t <= x - y by { assert (x - y) * (1.0 - t) >= 0.0; }
  }

  /** Lowering a base by one unit lowers its power by at most as many units as the exponent. */
  lemma {:induction false} PowerDrop(x: real, y: real, n: nat)
    requires 0.0 <= y <= x <= 1.0 && x - y <= Scaled(1)
    ensures Power(x, n) - Power(y, n) <= Scaled(n)
  {
    if n == 0 {
      ScaledNotNegative(0);
    } else {
      PowerDrop(x, y, n - 1);
      PowerInUnit(x, n - 1);
      PowerMono(y, x, n - 1);
      ScaledAdds(1, n - 1);
      hide Mul, Scaled;
      ProductDrop(x, Power(x, n - 1), y, Power(y, n - 1), Scaled(1), Scaled(n - 1));
    }
  }

  lemma UnitScaled(x: nat)
    requires x <= ONE
    ensures 0.0 <= Scaled(x) <= 1.0
  {
    ScaledAdds(x, ONE);
    ScaledNotNegative(x);
  }

  lemma FixedMulInUnit(a: nat, b: nat)
    requires a <= ONE && b <= ONE
    ensures FixedMul(a, b) <= ONE
  {
    hide Mul, FixedMul;
    UnitScaled(a);
    UnitScaled(b);
    FloorsDown(a, b);
    MulMono(Scaled(a), Scaled(b), 1.0, 1.0);
    MulDistributes(1.0, 0.0, 0.0);
    assert Scaled(FixedMul(a, b)) <= 1.0;
  }

  /** However many floors the exponentiation takes, it ends at most two units per exponent below the exact power. */
  lemma {:induction false} PowFromAbove(result: nat, base: nat, e: nat)
    requires result <= ONE && base <= ONE
    ensures Mul(Scaled(result), Power(Scaled(base), e)) <= Scaled(PowFrom(result, base, e)) + Scaled(2 * e)
    decreases e
  {
    hide Mul, FixedMul, Scaled;
    ScaledNotNegative(2 * e);
    if e == 0 {
      MulDistributes(Scaled(result), 0.0, 0.0);
    } else {
      var r, b, k := if e % 2 == 1 then FixedMul(result, base) else result, FixedMul(base, base), e / 2;
      FixedMulInUnit(result, base);
      FixedMulInUnit(base, base);
      PowFromAbove(r, b, k);
      assert PowFrom(result, base, e) == PowFrom(r, b, k);
      hide PowFrom, Power;
      UnitScaled(result);
      UnitScaled(base);
      FloorsDown(result, base);
      FloorsWithin(result, base);
      FloorsDown(base, base);
      FloorsWithin(base, base);
      RoundDrop(Scaled(result), Scaled(base), Scaled(r), Scaled(b), e);
      ScaledAdds(2 * k, k + 1);
      ScaledAdds(2 * k + (k + 1), 2 * e);
    }
  }

  /** `y` is `x` short of at most one unit. */
  predicate Short(y: real, x: real) { 0.0 <= y <= x <= y + Scaled(1) }

  /** One round of the loop in exact numbers: the floors it takes cost at most `e / 2 + 1` units. */
  lemma RoundDrop(x: real, q: real, y: real, b: real, e: nat)
    requires e > 0 && 0.0 <= x <= 1.0 && 0.0 <= q <= 1.0 && Short(b, Mul(q, q))
    requires if e % 2 == 1 then Short(y, Mul(x, q)) else y == x
    ensures Mul(x, Power(q, e)) <= Mul(y, Power(b, e / 2)) + Scaled(e / 2 + 1)
  {
    hide Mul, Scaled, Power;
    var k := e / 2;
    MulMono(q, q, 1.0, 1.0);
    MulMono(x, q, 1.0, 1.0);
    MulDistributes(1.0, 0.0, 0.0);
    PowerDrop(Mul(q, q), b, k);
    PowerMono(b, Mul(q, q), k);
    PowerInUnit(Mul(q, q), k);
    PowerSquare(q, k);
    ScaledAdds(1, k);
    ScaledAdds(0, 1);
    ScaledNotNegative(0);
    if e % 2 == 1 {
      ProductDrop(Mul(x, q), Power(q, k + k), y, Power(b, k), Scaled(1), Scaled(k));
      OddPower(x, q, k);
    } else {
      ProductDrop(x, Power(q, k + k), x, Power(b, k), Scaled(1), Scaled(k));
    }
  }

  lemma OddPower(x: real, q: real, k: nat)
    ensures Mul(x, Power(q, k + k + 1)) == Mul(Mul(x, q), Power(q, k + k))
  {
    hide Mul;
    MulAssociates(x, q, Power(q, k + k));
  }

  /** The reward of every block is the exact curve's, up to its own floor and the power's error times the initial reward. */
  lemma RewardAbove(h: nat, initialReward: nat, ratio: nat)
    requires ratio <= ONE
    ensures Mul(initialReward as real, Power(Scaled(ratio), h))
         <= RewardAt(h, initialReward, ratio) as real + 1.0 + Mul(initialReward as real, Scaled(2 * h))
  {
    hide Mul, FixedMul, Scaled, Power, PowFrom;
    var r, pow, power := initialReward as real, PowFixed(ratio, h), Power(Scaled(ratio), h);
    PowFromAbove(ONE, ratio, h);
    ScaledNotNegative(initialReward);
    MulDistributes(power, 0.0, 0.0);
    assert power <= Scaled(pow) + Scaled(2 * h);
    MulRight(power, Scaled(pow) + Scaled(2 * h), r);
    MulAssociates(power, r, r);
    MulAssociates(Scaled(pow) + Scaled(2 * h), r, r);
    MulDistributes(r, Scaled(pow), Scaled(2 * h));
    FloorUnscaled(initialReward, pow);
  }

  lemma FloorUnscaled(a: nat, b: nat)
    ensures Mul(a as real, Scaled(b)) <= FixedMul(a, b) as real + 1.0
  {
    hide Mul, FixedMul, Scaled;
    var one, f := ONE as real, FixedMul(a, b);
    FloorsWithin(a, b);
    ScaledAdds(f, 1);
    ScaledNotNegative(a);
    ScaledNotNegative(f + 1);
    MulRight(Mul(Scaled(a), Scaled(b)), Scaled(f + 1), one);
    MulAssociates(Scaled(a), Scaled(b), one);
    MulAssociates(Scaled(b), one, one);
    MulAssociates(Scaled(a), one, Scaled(b));
  }

  /** As long as the initial reward times twice the height fits in 2^128, which no network comes near to leaving, the
    * reward is within two embers of the exact curve, never above it.
    */
  lemma RewardAccurate(h: nat, initialReward: nat, ratio: nat)
    requires ratio <= ONE && initialReward * (2 * h) <= ONE
    ensures var exact := Mul(initialReward as real, Power(Scaled(ratio), h));
            exact - 2.0 <= RewardAt(h, initialReward, ratio) as real <= exact
  {
    RewardAbove(h, initialReward, ratio);
    RewardBelow(h, initialReward, ratio);
    hide RewardAt, Power;
    assert Mul(initialReward as real, Scaled(2 * h)) == (initialReward * (2 * h)) as real / ONE as real;
  }
}
