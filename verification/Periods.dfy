/** Heights and generation periods: the chain is cut into periods of equal length, the first one starting at height 1. */
module Periods {
  type Height = nat

  /** The first height of the period `h` falls in. */
  function PeriodStart(h: Height, length: nat): Height
    requires length > 0 && h > 0
  {
    (h - 1) / length * length + 1
  }

  lemma DivUnique(a: nat, length: nat, q: nat, r: nat)
    requires length > 0 && a == q * length + r && r < length
    ensures a / length == q
  {
    var d, m := a / length, a % length;
    assert a == d * length + m;
    assert (q - d) * length == m - r;
    assert q - d >= 1 ==> (q - d) * length >= length;
    assert q - d <= -1 ==> (q - d) * length <= -1 * length;
  }

  lemma InPeriod(h: Height, length: nat)
    requires length > 0 && h > 0
    ensures PeriodStart(h, length) <= h < PeriodStart(h, length) + length
  {
    assert h - 1 == (h - 1) / length * length + (h - 1) % length;
  }

  lemma MultipleDivides(q: nat, length: nat)
    requires length > 0
    ensures (q * length) % length == 0
  {
    DivUnique(q * length, length, q, 0);
    assert q * length == q * length / length * length + (q * length) % length;
  }

  /** Periods start at height 1 and every `length` blocks after. */
  lemma StartsInStep(h: Height, length: nat, later: nat)
    requires length > 0 && h > 0
    ensures (PeriodStart(h, length) - 1 + later * length) % length == 0
  {
    var q := (h - 1) / length;
    assert PeriodStart(h, length) - 1 + later * length == (q + later) * length;
    MultipleDivides(q + later, length);
  }

  lemma StartIsStart(h: Height, length: nat)
    requires length > 0 && h > 0
    ensures PeriodStart(PeriodStart(h, length), length) == PeriodStart(h, length)
  {
    DivUnique(PeriodStart(h, length) - 1, length, (h - 1) / length, 0);
  }

  /** A height that starts no period is in the period of the height before it. */
  lemma SamePeriod(h: Height, length: nat)
    requires length > 0 && h > 1 && PeriodStart(h, length) != h
    ensures PeriodStart(h - 1, length) == PeriodStart(h, length)
  {
    var q, r := (h - 1) / length, (h - 1) % length;
    assert h - 1 == q * length + r;
    DivUnique(h - 2, length, q, r - 1);
  }

  lemma {:induction false} PeriodsInOrder(g: Height, h: Height, length: nat)
    requires length > 0 && 0 < g <= h
    ensures PeriodStart(g, length) <= PeriodStart(h, length)
    decreases h
  {
    if g < h {
      PeriodsInOrder(g, h - 1, length);
      InPeriod(h - 1, length);
      if PeriodStart(h, length) != h {
        SamePeriod(h, length);
      }
    }
  }
}
