/** Rounding of money to cents (`round_money`), and the test that guards every debit.

    Stored amounts are whole cents; amounts that have not been rounded yet are reals. */
module Money {

  /** `round_money` as a number of cents: half-up, with ties going away from zero. */
  function Cents(value: real): int {
    if value >= 0.0 then (value * 100.0 + 0.5).Floor
    else -((-value * 100.0 + 0.5).Floor)
  }

  /** The amount, in currency units, that a number of cents stands for. */
  function Amount(cents: int): real {
    cents as real / 100.0
  }

  /** What rounding half away from zero means, without saying how it is computed. */
  ghost predicate IsHalfUp(value: real, cents: int) {
    var hundredths := value * 100.0;
    if hundredths >= 0.0 then cents as real - 0.5 <= hundredths < cents as real + 0.5
    else cents as real - 0.5 < hundredths <= cents as real + 0.5
  }

  /** The reference definition has exactly one solution, and `Cents` is it. */
  lemma CentsIsHalfUp(value: real, cents: int)
    ensures Cents(value) == cents <==> IsHalfUp(value, cents)
  {
    if value >= 0.0 {
      var f := (value * 100.0 + 0.5).Floor;
      assert f as real <= value * 100.0 + 0.5 < f as real + 1.0;
    } else {
      var f := (-value * 100.0 + 0.5).Floor;
      assert f as real <= -value * 100.0 + 0.5 < f as real + 1.0;
    }
  }

  lemma CentsIsNear(value: real)
    ensures -0.005 <= Amount(Cents(value)) - value <= 0.005
  {
    CentsIsHalfUp(value, Cents(value));
  }

  lemma CentsIsOdd(value: real)
    ensures Cents(-value) == -Cents(value)
  {
    CentsIsHalfUp(value, Cents(value));
    CentsIsHalfUp(-value, -Cents(value));
  }

  lemma CentsIsMonotone(a: real, b: real)
    requires a <= b
    ensures Cents(a) <= Cents(b)
  {
    CentsIsHalfUp(a, Cents(a));
    CentsIsHalfUp(b, Cents(b));
  }

  lemma CentsOfAmount(cents: int)
    ensures Cents(Amount(cents)) == cents
  {
    CentsIsHalfUp(Amount(cents), cents);
  }

  /** A debit followed by its compensation restores the balance, and the recorded amount is the
      amount that was applied. */
  lemma DebitThenCompensateCancels(balance: int, cost: real)
    ensures balance + Cents(-cost) + Cents(cost) == balance
    ensures Cents(-cost) == -Cents(Amount(Cents(cost)))
  {
    CentsIsOdd(cost);
    CentsOfAmount(Cents(cost));
  }

  /** Rounding twice, or rounding the difference of two rounded amounts, changes nothing. */
  lemma CentsOfDifference(a: int, b: int)
    ensures Cents(Amount(a) - Amount(b)) == a - b
  {
    assert Amount(a) - Amount(b) == Amount(a - b);
    CentsOfAmount(a - b);
  }

  /** The guard compares a sum of stored values with -0.005. As long as that sum is off by less
      than half a cent it decides exactly as the sum of the true cents compared with zero. */
  lemma EpsilonGuardIsExact(stored: real, cents: int)
    requires -0.005 < stored - Amount(cents) < 0.005
    ensures stored >= -0.005 <==> cents >= 0
  {
    if cents < 0 {
      assert Amount(cents) <= -0.01;
    } else {
      assert Amount(cents) >= 0.0;
    }
  }
}
