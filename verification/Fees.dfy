/** Fee arithmetic of withdrawals. */
module Fees {
  import opened Common

  /** The u128 product of two u64 always fits; the quotient is cast back to u64. */
  function Fee(amount: u64, rate: u64): u64 {
    amount * rate / FEE_DENOMINATOR % (U64_MAX + 1)
  }

  /** With a rate below the denominator the product fits u128, the cast loses nothing, and the
      fee never exceeds the amount; it is strictly less unless the amount is zero. */
  lemma FeeIsSafe(amount: u64, rate: u64)
    requires rate < FEE_DENOMINATOR
    ensures 0 <= amount * rate <= U128_MAX
    ensures Fee(amount, rate) == amount * rate / FEE_DENOMINATOR
    ensures Fee(amount, rate) <= amount
    ensures amount > 0 ==> Fee(amount, rate) < amount
  {
    if amount > 0 {
      Scale(rate, FEE_DENOMINATOR, amount);
      Scale(0, rate, amount);
      assert 0 <= amount * rate < FEE_DENOMINATOR * amount;
    }
  }

  lemma Scale(a: int, b: int, k: nat)
    requires a <= b
    ensures a * k <= b * k
    ensures a < b && k > 0 ==> a * k < b * k
  {
  }

  lemma FeeIsMonotone(a: u64, b: u64, rate: u64)
    requires a <= b && rate < FEE_DENOMINATOR
    ensures Fee(a, rate) <= Fee(b, rate)
  {
    FeeIsSafe(a, rate);
    FeeIsSafe(b, rate);
    Scale(a, b, rate);
  }

  function Amounts(ws: seq<u64>): nat {
    if ws == [] then 0 else Amounts(ws[..|ws| - 1]) + ws[|ws| - 1]
  }

  function FeesOf(ws: seq<u64>, rate: u64): nat {
    if ws == [] then 0 else FeesOf(ws[..|ws| - 1], rate) + Fee(ws[|ws| - 1], rate)
  }

  /** The fee on a total that need not fit u64, rounded down once. */
  function FeeOnTotal(total: nat, rate: u64): nat { total * rate / FEE_DENOMINATOR }

  lemma FeeOfParts(a: nat, b: nat, rate: u64)
    ensures FeeOnTotal(a, rate) + FeeOnTotal(b, rate) <= FeeOnTotal(a + b, rate)
         <= FeeOnTotal(a, rate) + FeeOnTotal(b, rate) + 1
  {
    assert (a + b) * rate == a * rate + b * rate;
    FloorOfSum(a * rate, b * rate);
  }

  lemma FloorOfSum(a: nat, b: nat)
    ensures a / FEE_DENOMINATOR + b / FEE_DENOMINATOR <= (a + b) / FEE_DENOMINATOR
         <= a / FEE_DENOMINATOR + b / FEE_DENOMINATOR + 1
  {
  }

  lemma {:induction false} FeesOfParts(ws: seq<u64>, rate: u64)
    requires rate < FEE_DENOMINATOR && ws != []
    ensures FeeOnTotal(Amounts(ws), rate) - (|ws| - 1)
         <= FeesOf(ws, rate) <= FeeOnTotal(Amounts(ws), rate)
  {
    var front, last := ws[..|ws| - 1], ws[|ws| - 1];
    FeeIsSafe(last, rate);
    assert Fee(last, rate) == FeeOnTotal(last, rate);
    if front == [] {
      assert Amounts(front) == 0 && FeesOf(front, rate) == 0;
      assert FeesOf(ws, rate) == 0 + Fee(last, rate);
    } else {
      FeesOfParts(front, rate);
      FeeOfParts(Amounts(front), last, rate);
    }
  }

  /** Splitting a withdrawal into n at one rate never costs more than the whole, and saves at
      most n - 1 units. */
  lemma Splitting(ws: seq<u64>, rate: u64)
    requires rate < FEE_DENOMINATOR && ws != [] && Amounts(ws) <= U64_MAX
    ensures Fee(Amounts(ws), rate) - (|ws| - 1) <= FeesOf(ws, rate) <= Fee(Amounts(ws), rate)
  {
    FeesOfParts(ws, rate);
    FeeIsSafe(Amounts(ws), rate);
  }
}
