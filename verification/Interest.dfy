/** Interest on a loan or savings balance, in whole cents. Rates are exact reals. */
module Interest {
  import opened Numbers

  datatype InterestPeriod = Weekly | Monthly {
    /** The balance snapshot date: one day before the last transaction, for both periods. */
    function CutoffFor(lastTxDate: int): int {
      lastTxDate - 1
    }
  }

  datatype BankPaymentResult = BankPaymentResult(interest: int, principal: int, newBalance: int)

  /** Interest on a magnitude in cents: rounded to the nearest cent, or down. */
  function InterestOn(magnitude: nat, rate: real, round: bool): int {
    if round then Round(magnitude as real * rate) else (magnitude as real * rate).Floor
  }

  function ApplyBankPayment(previous: int, payment: int, rate: real, round: bool): BankPaymentResult {
    var interest := InterestOn(Abs(previous), rate, round);
    var newBalance := if previous >= 0 then previous + interest - payment else previous - interest + payment;
    BankPaymentResult(if previous < 0 then -interest else interest, Abs(previous) - Abs(newBalance), newBalance)
  }

  /** What a payment pays beyond the balance and its interest. */
  function Excess(previous: int, payment: int, rate: real, round: bool): nat {
    var due := Abs(previous) + InterestOn(Abs(previous), rate, round);
    if payment > due then payment - due else 0
  }

  /** A payment is its interest plus its principal plus twice what it pays too much: the reported
      principal is short by twice the excess. So it splits exactly if and only if it does not
      exceed the balance and its interest. */
  lemma PaymentSplits(previous: int, payment: int, rate: real, round: bool)
    ensures var result := ApplyBankPayment(previous, payment, rate, round);
            var interest := InterestOn(Abs(previous), rate, round);
            && payment == interest + result.principal + 2 * Excess(previous, payment, rate, round)
            && (payment == interest + result.principal <==> payment <= Abs(previous) + interest)
  {
  }

  /** Paying 3.00 on a debt of 1.00 is reported as a principal of -1.00. */
  lemma OvershootExample()
    ensures ApplyBankPayment(-100, 300, 0.0, true) == BankPaymentResult(0, -100, 200)
  {
  }

  // ----- repeated payments on a debt

  /** The balance after `n` equal payments. */
  function Iterate(balance: int, payment: int, rate: real, round: bool, n: nat): int {
    if n == 0 then balance
    else ApplyBankPayment(Iterate(balance, payment, rate, round, n - 1), payment, rate, round).newBalance
  }

  lemma InterestMonotone(smaller: nat, larger: nat, rate: real, round: bool)
    requires smaller <= larger && rate >= 0.0
    ensures 0 <= InterestOn(smaller, rate, round) <= InterestOn(larger, rate, round)
  {
    var x, y := smaller as real * rate, larger as real * rate;
    assert 0.0 <= x <= y by {
      assert (larger - smaller) as real * rate >= 0.0;
    }
    if round {
      RoundMonotone(0.0, x);
      RoundMonotone(x, y);
    }
  }

  /** If the first payment exceeds the first interest, every payment up to payoff does, so the
      debt shrinks by at least a cent each time. */
  lemma {:induction false} DebtShrinks(balance: int, payment: int, rate: real, round: bool, n: nat)
    requires balance < 0 && rate >= 0.0
    requires payment > InterestOn(Abs(balance), rate, round)
    requires forall k: nat | k <= n :: Iterate(balance, payment, rate, round, k) < 0
    ensures balance + n <= Iterate(balance, payment, rate, round, n)
    ensures Iterate(balance, payment, rate, round, n) < Iterate(balance, payment, rate, round, n + 1)
  {
    hide InterestOn;
    if n > 0 {
      DebtShrinks(balance, payment, rate, round, n - 1);
    }
    InterestMonotone(Abs(Iterate(balance, payment, rate, round, n)), Abs(balance), rate, round);
  }

  /** The number of payments until a shrinking debt is gone: at most its initial cents. */
  lemma PaidOff(balance: int, payment: int, rate: real, round: bool) returns (n: nat)
    requires balance < 0 && rate >= 0.0
    requires payment > InterestOn(Abs(balance), rate, round)
    ensures 1 <= n <= Abs(balance) && Iterate(balance, payment, rate, round, n) >= 0
    ensures forall k: nat | k < n ::
              Iterate(balance, payment, rate, round, k) < 0
              && Iterate(balance, payment, rate, round, k) < Iterate(balance, payment, rate, round, k + 1)
  {
    hide ApplyBankPayment, InterestOn;
    n := 0;
    while Iterate(balance, payment, rate, round, n) < 0
      invariant forall k: nat | k < n :: Iterate(balance, payment, rate, round, k) < 0
      invariant forall k: nat | k < n :: Iterate(balance, payment, rate, round, k) < Iterate(balance, payment, rate, round, k + 1)
      invariant n <= Abs(balance)
      decreases Abs(balance) - n
    {
      DebtShrinks(balance, payment, rate, round, n);
      n := n + 1;
    }
  }

  /** Otherwise the debt never shrinks, let alone gets paid off. */
  lemma {:induction false} DebtPersists(balance: int, payment: int, rate: real, round: bool, n: nat)
    requires balance < 0 && rate >= 0.0
    requires payment <= InterestOn(Abs(balance), rate, round)
    ensures Iterate(balance, payment, rate, round, n) <= balance
  {
    hide InterestOn;
    if n > 0 {
      DebtPersists(balance, payment, rate, round, n - 1);
      InterestMonotone(Abs(balance), Abs(Iterate(balance, payment, rate, round, n - 1)), rate, round);
    }
  }

  /** A debt is paid off by equal payments exactly when the first one exceeds the first interest. */
  lemma PaidOffExactly(balance: int, payment: int, rate: real, round: bool)
    requires balance < 0 && rate >= 0.0
    ensures (exists n: nat :: Iterate(balance, payment, rate, round, n) >= 0)
        <==> payment > InterestOn(Abs(balance), rate, round)
  {
    hide InterestOn, Iterate;
    if payment > InterestOn(Abs(balance), rate, round) {
      var n := PaidOff(balance, payment, rate, round);
    } else {
      forall n: nat
        ensures Iterate(balance, payment, rate, round, n) < 0
      {
        DebtPersists(balance, payment, rate, round, n);
      }
    }
  }

  // ----- drift against the exact recurrence

  /** The balance without any rounding. */
  function Exact(balance: int, payment: int, rate: real, n: nat): real {
    if n == 0 then balance as real
    else Exact(balance, payment, rate, n - 1) * (1.0 + rate) + payment as real
  }

  function Power(x: real, n: nat): real {
    if n == 0 then 1.0 else x * Power(x, n - 1)
  }

  /** `1 + x + ... + x^(n-1)` */
  function SumOfPowers(x: real, n: nat): real {
    if n == 0 then 0.0 else SumOfPowers(x, n - 1) + Power(x, n - 1)
  }

  lemma {:induction false} SumOfPowersShift(x: real, n: nat)
    ensures SumOfPowers(x, n + 1) == 1.0 + x * SumOfPowers(x, n)
  {
    if n > 0 {
      SumOfPowersShift(x, n - 1);
      assert x * SumOfPowers(x, n) == x * SumOfPowers(x, n - 1) + x * Power(x, n - 1);
    }
  }

  /** One payment on a debt multiplies the balance by `1 + rate` and adds the payment, up to
      the rounding of the interest. */
  lemma PaymentStep(before: int, payment: int, rate: real, round: bool)
    requires before < 0
    ensures var after := ApplyBankPayment(before, payment, rate, round).newBalance as real;
            var exact := before as real * (1.0 + rate) + payment as real;
            if round then exact - 0.5 <= after <= exact + 0.5 else exact <= after < exact + 1.0
  {
    hide Round;
    assert Abs(before) as real * rate == -(before as real * rate);
  }

  /** A gap of at most `sum` before a payment is one of at most `error + factor * sum` after it. */
  lemma GapGrows(before: real, exact: real, factor: real, payment: real, after: real, least: real, most: real, sumLeast: real, sumMost: real)
    requires factor >= 0.0
    requires sumLeast <= before - exact <= sumMost
    requires before * factor + payment + least <= after <= before * factor + payment + most
    ensures least + factor * sumLeast <= after - (exact * factor + payment) <= most + factor * sumMost
  {
    Scale(sumLeast, before - exact, factor);
    Scale(before - exact, sumMost, factor);
    assert (before - exact) * factor == before * factor - exact * factor;
  }

  lemma Scale(x: real, y: real, factor: real)
    requires x <= y && factor >= 0.0
    ensures factor * x <= y * factor && x * factor <= factor * y
  {
  }

  /** Until payoff, rounding to the nearest cent keeps the balance after n payments within half
      of `1 + (1+r) + ... + (1+r)^(n-1)` cents of the exact balance. */
  lemma {:induction false} RoundingDrift(balance: int, payment: int, rate: real, n: nat)
    requires rate >= 0.0
    requires forall k: nat | k < n :: Iterate(balance, payment, rate, true, k) < 0
    ensures var drift := Iterate(balance, payment, rate, true, n) as real - Exact(balance, payment, rate, n);
            -0.5 * SumOfPowers(1.0 + rate, n) <= drift <= 0.5 * SumOfPowers(1.0 + rate, n)
  {
    hide ApplyBankPayment, SumOfPowers;
    if n == 0 {
      NoPowers(1.0 + rate);
    } else {
      RoundingDrift(balance, payment, rate, n - 1);
      var before, exact, sum := Iterate(balance, payment, rate, true, n - 1), Exact(balance, payment, rate, n - 1), SumOfPowers(1.0 + rate, n - 1);
      SumOfPowersShift(1.0 + rate, n - 1);
      PaymentStep(before, payment, rate, true);
      GapGrows(before as real, exact, 1.0 + rate, payment as real, Iterate(balance, payment, rate, true, n) as real,
               -0.5, 0.5, -0.5 * sum, 0.5 * sum);
    }
  }

  lemma NoPowers(x: real)
    ensures SumOfPowers(x, 0) == 0.0
  {
  }

  /** Rounding interest down always favours the debtor, by at most the whole sum of powers. */
  lemma {:induction false} FloorDrift(balance: int, payment: int, rate: real, n: nat)
    requires rate >= 0.0
    requires forall k: nat | k < n :: Iterate(balance, payment, rate, false, k) < 0
    ensures var drift := Iterate(balance, payment, rate, false, n) as real - Exact(balance, payment, rate, n);
            0.0 <= drift <= SumOfPowers(1.0 + rate, n)
  {
    hide ApplyBankPayment, SumOfPowers;
    if n == 0 {
      NoPowers(1.0 + rate);
    } else {
      FloorDrift(balance, payment, rate, n - 1);
      var before, exact, sum := Iterate(balance, payment, rate, false, n - 1), Exact(balance, payment, rate, n - 1), SumOfPowers(1.0 + rate, n - 1);
      SumOfPowersShift(1.0 + rate, n - 1);
      PaymentStep(before, payment, rate, false);
      GapGrows(before as real, exact, 1.0 + rate, payment as real, Iterate(balance, payment, rate, false, n) as real,
               0.0, 1.0, 0.0, sum);
    }
  }
}
