/** The block reward curve in Q128 fixed point: binary exponentiation with a floor at every multiply. */
module EmissionCurve {
  const FIXED_POINT_BITS: nat := 128

  /** One in fixed point, 2^128. */
  const ONE: nat := 0x1_0000_0000_0000_0000_0000_0000_0000_0000

  function ShiftRight(x: nat, bits: nat): nat
    decreases bits
  {
    if bits == 0 then x else ShiftRight(x / 2, bits - 1)
  }

  function FixedMul(a: nat, b: nat): nat { ShiftRight(a * b, FIXED_POINT_BITS) }

  function PowerOfTwo(n: nat): (r: nat)
    ensures r > 0
  {
    if n == 0 then 1 else 2 * PowerOfTwo(n - 1)
  }

  /** A shift divides by a power of two and drops the rest. */
  lemma {:induction false} ShiftDivides(x: nat, bits: nat)
    ensures 0 <= x - ShiftRight(x, bits) * PowerOfTwo(bits) < PowerOfTwo(bits)
    decreases bits
  {
    if bits > 0 {
      ShiftDivides(x / 2, bits - 1);
      var f, p := ShiftRight(x, bits), PowerOfTwo(bits - 1);
      assert f * (2 * p) == 2 * (f * p);
    }
  }

  lemma OneIsPower()
    ensures PowerOfTwo(FIXED_POINT_BITS) == ONE
  {
    hide PowerOfTwo;
    EightBits();
    PowerOfTwoAdds(8, 8);
    PowerOfTwoAdds(16, 16);
    PowerOfTwoAdds(32, 32);
    PowerOfTwoAdds(64, 64);
  }

  lemma EightBits()
    ensures PowerOfTwo(8) == 256
  {
    assert PowerOfTwo(4) == 16;
  }

  lemma {:induction false} PowerOfTwoAdds(m: nat, n: nat)
    ensures PowerOfTwo(m + n) == PowerOfTwo(m) * PowerOfTwo(n)
  {
    if m > 0 {
      PowerOfTwoAdds(m - 1, n);
      assert 2 * (PowerOfTwo(m - 1) * PowerOfTwo(n)) == 2 * PowerOfTwo(m - 1) * PowerOfTwo(n);
    }
  }

  /** A fixed-point product is the exact one, floored. */
  lemma FixedMulFloors(a: nat, b: nat)
    ensures 0 <= a * b - FixedMul(a, b) * ONE < ONE
  {
    ShiftDivides(a * b, FIXED_POINT_BITS);
    OneIsPower();
  }

  /** What the exponentiation loop still does from `result`, `base` and `e`. */
  function PowFrom(result: nat, base: nat, e: nat): nat
    decreases e
  {
    if e == 0 then result
    else PowFrom(if e % 2 == 1 then FixedMul(result, base) else result, FixedMul(base, base), e / 2)
  }

  function PowFixed(ratio: nat, h: nat): nat { PowFrom(ONE, ratio, h) }

  method ComputePowFixed(ratio: nat, h: nat) returns (result: nat)
    ensures result == PowFixed(ratio, h)
  {
    result := ONE;
    var base, e := ratio, h;
    while e > 0
      invariant PowFrom(result, base, e) == PowFixed(ratio, h)
    {
      if e % 2 == 1 {
        result := FixedMul(result, base);
      }
      base := FixedMul(base, base);
      e := e / 2;
    }
  }

  function RewardAt(h: nat, initialReward: nat, ratio: nat): nat { FixedMul(initialReward, PowFixed(ratio, h)) }

  /** All that was minted in the first `n` rewarded blocks. */
  function TotalReward(n: nat, initialReward: nat, ratio: nat): nat {
    if n == 0 then 0 else TotalReward(n - 1, initialReward, ratio) + RewardAt(n - 1, initialReward, ratio)
  }

  // ----- Against the exact power. Products go through Mul, so that each proof sees only those it is about.

  function Mul(a: real, b: real): real { a * b }

  function Power(q: real, n: nat): real { if n == 0 then 1.0 else Mul(q, Power(q, n - 1)) }

  /** A fixed-point number as the real it stands for. */
  function Scaled(x: nat): real { x as real / ONE as real }

  lemma MulAssociates(a: real, b: real, c: real)
    ensures Mul(Mul(a, b), c) == Mul(a, Mul(b, c)) && Mul(a, b) == Mul(b, a)
  {
  }

  lemma MulDistributes(a: real, b: real, c: real)
    ensures Mul(a, b + c) == Mul(a, b) + Mul(a, c) && Mul(b + c, a) == Mul(b, a) + Mul(c, a)
    ensures Mul(a, 1.0) == a == Mul(1.0, a) && Mul(a, b - c) == Mul(a, b) - Mul(a, c)
  {
  }

  lemma MulMono(a: real, b: real, c: real, d: real)
    requires 0.0 <= a <= c && 0.0 <= b <= d
    ensures 0.0 <= Mul(a, b) <= Mul(c, d)
  {
    assert a * b <= c * b;
    assert c * b <= c * d;
  }

  lemma MulRight(a: real, b: real, c: real)
    requires a <= b && 0.0 <= c
    ensures Mul(a, c) <= Mul(b, c)
  {
  }

  lemma ScaledNotNegative(x: nat)
    ensures 0.0 <= Scaled(x) && Scaled(ONE) == 1.0
    ensures Mul(Scaled(x), ONE as real) == x as real
  {
  }

  /** A floored product is at most the product. */
  lemma FloorsDown(a: nat, b: nat)
    ensures 0.0 <= Scaled(FixedMul(a, b)) <= Mul(Scaled(a), Scaled(b))
  {
    var p, f := a * b, FixedMul(a, b);
    FixedMulFloors(a, b);
    hide FixedMul;
    var x, one := f as real, ONE as real;
    assert x * one <= p as real by { assert (f * ONE) as real == x * one; }
    assert p as real == a as real * b as real;
    assert x / one * one == x;
    assert Scaled(a) * Scaled(b) == (a as real * b as real) / one / one;
    assert x <= p as real / one;
  }

  lemma {:induction false} PowerMono(p: real, q: real, n: nat)
    requires 0.0 <= p <= q
    ensures 0.0 <= Power(p, n) <= Power(q, n)
  {
    if n > 0 {
      PowerMono(p, q, n - 1);
      hide Mul;
      MulMono(p, Power(p, n - 1), q, Power(q, n - 1));
    }
  }

  lemma {:induction false} PowerAdd(q: real, m: nat, n: nat)
    ensures Power(q, m + n) == Mul(Power(q, m), Power(q, n))
  {
    hide Mul;
    if m == 0 {
      MulDistributes(Power(q, n), 0.0, 0.0);
    } else {
      PowerAdd(q, m - 1, n);
      MulAssociates(q, Power(q, m - 1), Power(q, n));
    }
  }

  lemma {:induction false} PowerSquare(q: real, n: nat)
    ensures Power(Mul(q, q), n) == Power(q, n + n)
  {
    hide Mul;
    if n > 0 {
      PowerSquare(q, n - 1);
      assert n + n == 1 + (1 + (n - 1 + (n - 1)));
      assert Power(q, n + n) == Mul(q, Mul(q, Power(q, n - 1 + (n - 1))));
      MulAssociates(q, q, Power(q, n - 1 + (n - 1)));
    }
  }

  /** However many floors the exponentiation takes, it never ends above the exact power. */
  lemma {:induction false} PowFromBelow(result: nat, base: nat, e: nat)
    ensures 0.0 <= Scaled(PowFrom(result, base, e)) <= Mul(Scaled(result), Power(Scaled(base), e))
    decreases e
  {
    hide Mul, FixedMul, Scaled;
    ScaledNotNegative(result);
    ScaledNotNegative(base);
    if e == 0 {
      MulDistributes(Scaled(result), 0.0, 0.0);
    } else {
      var q, k := Scaled(base), e / 2;
      var r, b := if e % 2 == 1 then FixedMul(result, base) else result, FixedMul(base, base);
      PowFromBelow(r, b, k);
      assert PowFrom(result, base, e) == PowFrom(r, b, k);
      hide PowFrom, Power;
      FloorsDown(result, base);
      FloorsDown(base, base);
      PowerMono(Scaled(b), Mul(q, q), k);
      PowerSquare(q, k);
      HalfStep(Scaled(result), Scaled(r), q, Power(Scaled(b), k), e);
    }
  }

  /** One round of the loop in exact numbers: `x` is the result before it, `y` the one after. */
  lemma HalfStep(x: real, y: real, q: real, tail: real, e: nat)
    requires e > 0 && 0.0 <= q && 0.0 <= x && 0.0 <= y && 0.0 <= tail <= Power(q, e / 2 + e / 2)
    requires y <= if e % 2 == 1 then Mul(x, q) else x
    ensures Mul(y, tail) <= Mul(x, Power(q, e))
  {
    hide Mul;
    var m := e / 2 + e / 2;
    if e % 2 == 1 {
      assert e == m + 1;
      MulMono(y, tail, Mul(x, q), Power(q, m));
      MulAssociates(x, q, Power(q, m));
    } else {
      assert e == m;
      MulMono(y, tail, x, Power(q, m));
    }
  }

  lemma RewardBelow(h: nat, initialReward: nat, ratio: nat)
    ensures RewardAt(h, initialReward, ratio) as real <= Mul(initialReward as real, Power(Scaled(ratio), h))
  {
    hide Mul, FixedMul, Scaled, Power, PowFrom;
    var p, power, pow := Scaled(PowFixed(ratio, h)), Power(Scaled(ratio), h), PowFixed(ratio, h);
    PowFromBelow(ONE, ratio, h);
    ScaledNotNegative(initialReward);
    MulDistributes(power, 0.0, 0.0);
    FloorsDown(initialReward, pow);
    MulMono(Scaled(initialReward), p, Scaled(initialReward), power);
    Unscale(RewardAt(h, initialReward, ratio), initialReward, power);
  }

  lemma Unscale(x: nat, a: nat, p: real)
    requires Scaled(x) <= Mul(Scaled(a), p)
    ensures x as real <= Mul(a as real, p)
  {
    hide Mul, Scaled;
    var one := ONE as real;
    ScaledNotNegative(x);
    ScaledNotNegative(a);
    MulRight(Scaled(x), Mul(Scaled(a), p), one);
    MulAssociates(Scaled(a), p, one);
    MulAssociates(Scaled(a), one, p);
    MulAssociates(p, one, one);
  }

  function Geometric(q: real, n: nat): real { if n == 0 then 0.0 else Geometric(q, n - 1) + Power(q, n - 1) }

  lemma {:induction false} GeometricSum(q: real, n: nat)
    ensures Mul(Geometric(q, n), 1.0 - q) == 1.0 - Power(q, n)
  {
    if n > 0 {
      GeometricSum(q, n - 1);
      hide Mul;
      var g, p := Geometric(q, n - 1), Power(q, n - 1);
      MulDistributes(1.0 - q, g, p);
      MulDistributes(p, 1.0, q);
      MulAssociates(p, q, 1.0);
    }
  }

  lemma {:induction false} TotalBelow(n: nat, initialReward: nat, ratio: nat)
    ensures TotalReward(n, initialReward, ratio) as real <= Mul(initialReward as real, Geometric(Scaled(ratio), n))
  {
    hide RewardAt, Mul, Scaled, Power;
    if n == 0 {
      MulDistributes(initialReward as real, 0.0, 0.0);
    } else {
      TotalBelow(n - 1, initialReward, ratio);
      RewardBelow(n - 1, initialReward, ratio);
      MulDistributes(initialReward as real, Geometric(Scaled(ratio), n - 1), Power(Scaled(ratio), n - 1));
    }
  }

  /** For every ratio up to one and every number of blocks, everything minted stays within the geometric series of the
    * initial reward: total * (2^128 - ratio) <= initialReward * 2^128.
    */
  lemma MintedWithinGeometric(n: nat, initialReward: nat, ratio: nat)
    requires ratio <= ONE
    ensures TotalReward(n, initialReward, ratio) * (ONE - ratio) <= initialReward * ONE
  {
    hide Geometric, Power, TotalReward, Scaled, Mul;
    var q, t := Scaled(ratio), TotalReward(n, initialReward, ratio);
    RatioBounds(ratio);
    TotalBelow(n, initialReward, ratio);
    GeometricSum(q, n);
    PowerMono(0.0, q, n);
    WithinSeries(t as real, initialReward as real, Geometric(q, n), 1.0 - q, Power(q, n));
    WholeNumbers(t, initialReward, ratio);
  }

  lemma WithinSeries(t: real, r0: real, g: real, d: real, p: real)
    requires t <= Mul(r0, g) && 0.0 <= r0 && 0.0 <= d && 0.0 <= p && Mul(g, d) == 1.0 - p
    ensures Mul(t, d) <= r0
  {
    hide Mul;
    MulRight(t, Mul(r0, g), d);
    MulAssociates(r0, g, d);
    MulDistributes(r0, 1.0, p);
    MulMono(0.0, 0.0, r0, p);
  }

  lemma RatioBounds(ratio: nat)
    requires ratio <= ONE
    ensures 0.0 <= Scaled(ratio) <= 1.0
  {
  }

  lemma WholeNumbers(t: nat, r: nat, ratio: nat)
    requires ratio <= ONE && Mul(t as real, 1.0 - Scaled(ratio)) <= r as real
    ensures t * (ONE - ratio) <= r * ONE
  {
    var one, x := ONE as real, t as real;
    assert Scaled(ratio) * one == ratio as real;
    assert (1.0 - Scaled(ratio)) * one == one - ratio as real == (ONE - ratio) as real;
    assert x * ((1.0 - Scaled(ratio)) * one) == (x * (1.0 - Scaled(ratio))) * one <= r as real * one;
    assert (t * (ONE - ratio)) as real == x * (ONE - ratio) as real;
    assert (r * ONE) as real == r as real * one;
  }

  // ----- A flat curve

  lemma {:induction false} FlatPower(base: nat, e: nat)
    requires base == ONE
    ensures PowFrom(ONE, base, e) == ONE
    decreases e
  {
    if e > 0 {
      FixedMulFloors(ONE, ONE);
      hide FixedMul;
      FlatPower(ONE, e / 2);
    }
  }

  /** At a ratio of exactly one every reward is the initial one. */
  lemma FlatReward(h: nat, initialReward: nat)
    ensures RewardAt(h, initialReward, ONE) == initialReward
  {
    FlatPower(ONE, h);
    FixedMulFloors(initialReward, ONE);
    hide FixedMul, PowFrom;
  }

  // ----- The hard cap

  datatype Settings = Settings(cEmit: nat, initialReward: nat, ratio: nat)

  const C_EMIT: nat := 9_500_000_000_000_000
  const MAINNET := Settings(C_EMIT, 1_252_834_433, 340282322045415694657836056900309514630)
  const TESTNET := Settings(C_EMIT, 12_528_336_897, 340281918165977088157076486680406733895)
  const STAGENET := TESTNET

  /** The settings' own condition for the cap: the whole geometric series stays below it. */
  predicate Capped(s: Settings) { s.ratio < ONE && s.initialReward * ONE < s.cEmit * (ONE - s.ratio) }

  /** Settings that meet the condition never mint their cap, at any height. */
  lemma CapHolds(s: Settings, n: nat)
    requires Capped(s)
    ensures TotalReward(n, s.initialReward, s.ratio) < s.cEmit
  {
    MintedWithinGeometric(n, s.initialReward, s.ratio);
    hide TotalReward;
    CancelStrict(TotalReward(n, s.initialReward, s.ratio), s.cEmit, ONE - s.ratio);
  }

  lemma CancelStrict(a: int, b: int, d: int)
    requires d > 0 && a * d < b * d
    ensures a < b
  {
    assert (a - b) * d == a * d - b * d;
  }

  /** The three networks never mint their 95 million HRTH, however long they run. */
  lemma HardCap(n: nat)
    ensures TotalReward(n, 1_252_834_433, 340282322045415694657836056900309514630) < 95_000_000_0000_0000
    ensures TotalReward(n, 12_528_336_897, 340281918165977088157076486680406733895) < 95_000_000_0000_0000
  {
    hide TotalReward;
    CapHolds(MAINNET, n);
    CapHolds(TESTNET, n);
  }
}
