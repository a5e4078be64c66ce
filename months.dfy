/** Properties of one month of the run and of the first `k` months, stated
    about the fold (`TariffsIn`, `BalanceAfter`, `FlowsAt`) that the month
    loop computes. */
module MonthFacts {
  import opened Numeric
  import opened Tables
  import opened Simulation

  /** The yearly growth factor of the tariff and of the Fio B fee. */
  function Growth(p: Params): real {
    1.0 + p.annualAdjustment
  }

  /** Whole years elapsed before month `month`. */
  function YearsElapsed(month: int): int
    requires month >= 1
  {
    (month - 1) / 12
  }

  /** Compounding one more year: `a * g^n * g == a * g^(n+1)`. */
  lemma CompoundOnce(a: real, g: real, n: nat)
    ensures a * Pow(g, n) * g == a * Pow(g, n + 1)
  {
    var q := Pow(g, n);
    assert Pow(g, n + 1) == g * q;
    assert a * q * g == a * (g * q);
  }

  /** The tariff in force in month `month` is the initial one compounded
      once per whole year elapsed; month 1 is not escalated. */
  lemma {:induction false} TariffSchedule(p: Params, month: nat)
    requires month >= 1
    ensures TariffsIn(p, month).tariff == p.initialTariff * Pow(Growth(p), YearsElapsed(month))
    decreases month
  {
    if month > 1 {
      TariffSchedule(p, month - 1);
      var n := YearsElapsed(month - 1);
      if (month - 1) % 12 == 0 {
        assert YearsElapsed(month) == n + 1;
        CompoundOnce(p.initialTariff, Growth(p), n);
      } else {
        assert YearsElapsed(month) == n;
      }
    }
  }

  /** Likewise the Fio B fee in force in month `month`. */
  lemma {:induction false} FioBSchedule(p: Params, month: nat)
    requires month >= 1
    ensures TariffsIn(p, month).fioB == p.initialFioB * Pow(Growth(p), YearsElapsed(month))
    decreases month
  {
    if month > 1 {
      FioBSchedule(p, month - 1);
      var n := YearsElapsed(month - 1);
      if (month - 1) % 12 == 0 {
        assert YearsElapsed(month) == n + 1;
        CompoundOnce(p.initialFioB, Growth(p), n);
      } else {
        assert YearsElapsed(month) == n;
      }
    }
  }

  /** Without an annual adjustment the tariffs never change. */
  lemma TariffsConstant(p: Params, month: nat)
    requires month >= 1 && p.annualAdjustment == 0.0
    ensures TariffsIn(p, month) == Tariffs(p.initialTariff, p.initialFioB)
  {
    TariffSchedule(p, month);
    FioBSchedule(p, month);
    PowOfOne(YearsElapsed(month));
    assert Growth(p) == 1.0;
  }

  /** With a non-negative adjustment and tariff, the tariff never goes down
      from one month to a later one. */
  lemma TariffNonDecreasing(p: Params, m1: nat, m2: nat)
    requires 1 <= m1 <= m2
    requires p.annualAdjustment >= 0.0 && p.initialTariff >= 0.0
    ensures TariffsIn(p, m1).tariff <= TariffsIn(p, m2).tariff
  {
    TariffSchedule(p, m1);
    TariffSchedule(p, m2);
    CompoundedNonDecreasing(p, p.initialTariff, m1, m2);
  }

  /** Likewise for the Fio B fee. */
  lemma FioBNonDecreasing(p: Params, m1: nat, m2: nat)
    requires 1 <= m1 <= m2
    requires p.annualAdjustment >= 0.0 && p.initialFioB >= 0.0
    ensures TariffsIn(p, m1).fioB <= TariffsIn(p, m2).fioB
  {
    FioBSchedule(p, m1);
    FioBSchedule(p, m2);
    CompoundedNonDecreasing(p, p.initialFioB, m1, m2);
  }

  lemma CompoundedNonDecreasing(p: Params, a: real, m1: nat, m2: nat)
    requires 1 <= m1 <= m2 && a >= 0.0 && p.annualAdjustment >= 0.0
    ensures a * Pow(Growth(p), YearsElapsed(m1)) <= a * Pow(Growth(p), YearsElapsed(m2))
  {
    PowMonotone(Growth(p), YearsElapsed(m1), YearsElapsed(m2));
    ScaleMonotone(a, Pow(Growth(p), YearsElapsed(m1)), Pow(Growth(p), YearsElapsed(m2)));
  }

  lemma ScaleMonotone(a: real, x: real, y: real)
    requires a >= 0.0 && x <= y
    ensures a * x <= a * y
  {
    assert a * y - a * x == a * (y - x);
  }

  /** Within one contract year the tariffs stay where the year began. */
  lemma TariffsFixedWithinYear(p: Params, m1: nat, m2: nat)
    requires 1 <= m1 && 1 <= m2 && YearsElapsed(m1) == YearsElapsed(m2)
    ensures TariffsIn(p, m1) == TariffsIn(p, m2)
  {
    TariffSchedule(p, m1);
    TariffSchedule(p, m2);
    FioBSchedule(p, m1);
    FioBSchedule(p, m2);
  }

  /** The calendar of month `month`: the contract year it falls in, counted
      from the start year, and its month of that year, 1 to 12. */
  lemma Calendar(p: Params, month: nat)
    requires month >= 1
    ensures FlowsAt(p, month).month == month
    ensures FlowsAt(p, month).year == p.startYear + YearsElapsed(month)
    ensures 1 <= FlowsAt(p, month).monthOfYear <= 12
    ensures (FlowsAt(p, month).year - p.startYear) * 12 + FlowsAt(p, month).monthOfYear == month
  {
  }

  /** The price of a compensated kWh in month `month`: the initial tariff
      less the share of the initial Fio B fee charged in the month's
      calendar year, compounded like the tariffs. */
  lemma CreditPriceSchedule(p: Params, month: nat)
    requires month >= 1
    ensures var year := p.startYear + YearsElapsed(month);
      FlowsAt(p, month).Price()
      == (p.initialTariff - p.initialFioB * FioBShare(year)) * Pow(Growth(p), YearsElapsed(month))
  {
    TariffSchedule(p, month);
    FioBSchedule(p, month);
    var f := FlowsAt(p, month);
    assert f.tariff == TariffsIn(p, month).tariff && f.fioB == TariffsIn(p, month).fioB;
    assert f.fioBShare == FioBShare(p.startYear + YearsElapsed(month));
    CompoundedCreditPrice(p, month, f.tariff, f.fioB);
  }

  lemma CompoundedCreditPrice(p: Params, month: nat, t: real, f: real)
    requires month >= 1
    requires t == p.initialTariff * Pow(Growth(p), YearsElapsed(month))
    requires f == p.initialFioB * Pow(Growth(p), YearsElapsed(month))
    ensures var year := p.startYear + YearsElapsed(month);
      t - f * FioBShare(year)
      == (p.initialTariff - p.initialFioB * FioBShare(year)) * Pow(Growth(p), YearsElapsed(month))
  {
  }

  // ---------------------------------------------------------------- generation

  /** Without degradation and without seasonality every month generates
      exactly the mean. */
  lemma GenerationConstant(p: Params, month: nat)
    requires month >= 1 && p.annualDegradation == 0.0 && !p.seasonality
    ensures Generation(p, month) == p.meanGeneration
  {
    PowOfOne(YearsElapsed(month));
    assert 1.0 - p.annualDegradation == 1.0;
  }

  /** The same month a year later generates `1 - degradation` times as
      much: the degradation is applied once per whole year. */
  lemma GenerationYearOnYear(p: Params, month: nat)
    requires month >= 1
    ensures Generation(p, month + 12) == Generation(p, month) * (1.0 - p.annualDegradation)
  {
    var d := 1.0 - p.annualDegradation;
    var n := YearsElapsed(month);
    assert YearsElapsed(month + 12) == n + 1;
    assert (month + 12 - 1) % 12 == (month - 1) % 12;
    var q := Pow(d, n);
    assert Pow(d, n + 1) == d * q;
    if p.seasonality {
      var f := SeasonalFactor((month - 1) % 12 + 1);
      assert p.meanGeneration * (d * q) * f == p.meanGeneration * q * f * d;
    } else {
      assert p.meanGeneration * (d * q) == p.meanGeneration * q * d;
    }
  }

  /** With a degradation rate between 0 and 1 and a non-negative mean, a
      month generates between nothing and the mean times the month's
      seasonal factor (at most 1.25). */
  lemma GenerationBounds(p: Params, month: nat)
    requires month >= 1 && 0.0 <= p.annualDegradation <= 1.0 && p.meanGeneration >= 0.0
    ensures 0.0 <= Generation(p, month)
    ensures !p.seasonality ==> Generation(p, month) <= p.meanGeneration
    ensures p.seasonality ==> Generation(p, month) <= p.meanGeneration * 1.25
  {
    var q := Pow(1.0 - p.annualDegradation, YearsElapsed(month));
    PowAtMostOne(1.0 - p.annualDegradation, YearsElapsed(month));
    var base := p.meanGeneration * q;
    ScaleMonotone(p.meanGeneration, 0.0, q);
    ScaleMonotone(p.meanGeneration, q, 1.0);
    assert 0.0 <= base <= p.meanGeneration;
    if p.seasonality {
      var f := SeasonalFactor((month - 1) % 12 + 1);
      ScaleMonotone(base, f, 1.25);
      ScaleMonotone(1.25, base, p.meanGeneration);
      assert base * f >= 0.0;
    }
  }

  // ---------------------------------------------------------------- ledger

  /** The credit balance is never negative. */
  lemma BalanceNonNegative(p: Params, k: nat)
    ensures BalanceAfter(p, k) >= 0.0
  {
  }

  /** One month of the ledger: the closing balance is the opening one plus
      the (non-negative) surplus less what was compensated, compensation
      never exceeds the grid demand, and it falls short of the demand only
      when the credits run out. */
  lemma LedgerStep(p: Params, month: nat)
    requires month >= 1
    ensures var s := SettlementIn(p, month);
      BalanceAfter(p, month) == s.balance
      && s.balance == BalanceAfter(p, month - 1) + InjectedIn(p, month) - s.compensated
      && InjectedIn(p, month) >= 0.0
      && InjectedIn(p, month) >= Generation(p, month) - SelfConsumed(p)
      && s.balance >= 0.0 && s.compensated <= GridDemand(p)
      && (s.compensated == GridDemand(p) || s.balance == 0.0)
  {
  }

  /** Energy injected over the first `k` months. */
  function InjectedTotal(p: Params, k: nat): real {
    if k == 0 then 0.0 else InjectedTotal(p, k - 1) + InjectedIn(p, k)
  }

  /** Energy compensated over the first `k` months. */
  function CompensatedTotal(p: Params, k: nat): real {
    if k == 0 then 0.0 else CompensatedTotal(p, k - 1) + SettlementIn(p, k).compensated
  }

  /** The balance after `k` months is everything injected less everything
      compensated, so credits never compensate more than was injected. */
  lemma {:induction false} LedgerTotals(p: Params, k: nat)
    ensures BalanceAfter(p, k) == InjectedTotal(p, k) - CompensatedTotal(p, k)
    ensures CompensatedTotal(p, k) <= InjectedTotal(p, k)
  {
    if k > 0 {
      LedgerTotals(p, k - 1);
    }
  }

  // ---------------------------------------------------------------- energy

  /** For a share between 0 and 1 and a non-negative consumption, the
      consumption splits into a self-consumed part and a grid demand of
      `consumption * (1 - share)`, neither negative. */
  lemma ConsumptionSplit(p: Params)
    requires 0.0 <= p.selfConsumptionShare <= 1.0 && p.consumption >= 0.0
    ensures SelfConsumed(p) + GridDemand(p) == p.consumption
    ensures GridDemand(p) == p.consumption * (1.0 - p.selfConsumptionShare)
    ensures 0.0 <= SelfConsumed(p) <= p.consumption
    ensures 0.0 <= GridDemand(p)
  {
    var c, share := p.consumption, p.selfConsumptionShare;
    assert c - c * share == c * (1.0 - share);
    assert c * (1.0 - share) >= 0.0;
    assert c * share >= 0.0;
  }

  /** Energy conservation in every month: the grid demand is met exactly by
      compensated credits plus energy bought, and with the self-consumed part
      they make up the whole consumption. Under the same conditions as above
      both parts are non-negative. */
  lemma EnergyConservation(p: Params, month: nat)
    requires month >= 1
    ensures var f := FlowsAt(p, month);
      f.compensated + f.Purchased() == f.gridDemand
      && f.selfConsumed + f.compensated + f.Purchased() == p.consumption
      && f.gridDemand == p.consumption * (1.0 - p.selfConsumptionShare)
    ensures 0.0 <= p.selfConsumptionShare <= 1.0 && p.consumption >= 0.0 ==>
      0.0 <= FlowsAt(p, month).compensated && 0.0 <= FlowsAt(p, month).Purchased()
  {
    EnergyCarried(p, month);
    var c, share := p.consumption, p.selfConsumptionShare;
    assert c - c * share == c * (1.0 - share);
    if 0.0 <= share <= 1.0 && c >= 0.0 {
      ConsumptionSplit(p);
      DemandMet(p, month);
    }
  }

  lemma DemandMet(p: Params, month: nat)
    requires month >= 1 && 0.0 <= GridDemand(p)
    ensures 0.0 <= SettlementIn(p, month).compensated <= GridDemand(p)
  {
    BalanceNonNegative(p, month - 1);
  }

  // ---------------------------------------------------------------- charges

  /** Installments paid over the first `k` months. */
  function InstallmentsTotal(p: Params, k: nat): real {
    if k == 0 then 0.0 else InstallmentsTotal(p, k - 1) + InstallmentAt(p, k)
  }

  /** The months of the first `k` that fall within the financing term. */
  function FinancedMonths(p: Params, k: nat): nat {
    if p.financingMonths < 0 then 0
    else if p.financingMonths < k then p.financingMonths
    else k
  }

  /** Over the first `k` months exactly the installments of the months
      inside the financing term are paid: the installment is charged in
      months 1 to `financingMonths` and never again. */
  lemma {:induction false} InstallmentsPaid(p: Params, k: nat)
    ensures InstallmentsTotal(p, k) == p.installment * FinancedMonths(p, k) as real
  {
    if k > 0 {
      InstallmentsPaid(p, k - 1);
      var n := FinancedMonths(p, k - 1) as real;
      if k <= p.financingMonths {
        assert FinancedMonths(p, k) as real == n + 1.0;
        assert p.installment * (n + 1.0) == p.installment * n + p.installment;
      } else {
        assert FinancedMonths(p, k) as real == n;
      }
    }
  }

  // ---------------------------------------------------------------- money

  /** The savings of a month are the bill without the installation
      (all consumption at the tariff) less the bill with it (the energy
      bought at the tariff plus the Fio B share charged on the compensated
      credits). */
  lemma SavingsAgainstBill(p: Params, month: nat)
    requires month >= 1
    ensures var f := FlowsAt(p, month);
      f.Savings() == p.consumption * f.tariff
                   - (f.Purchased() * f.tariff + f.compensated * f.fioB * f.fioBShare)
  {
    var f := FlowsAt(p, month);
    assert f.selfConsumed == SelfConsumed(p) && f.gridDemand == GridDemand(p);
    FlowsBill(f, p.consumption);
  }

  /** The savings identity for any month whose self-consumption and grid
      demand make up `total`. */
  lemma FlowsBill(f: MonthFlows, total: real)
    requires f.selfConsumed + f.gridDemand == total
    ensures f.Savings() == total * f.tariff
                           - (f.Purchased() * f.tariff + f.compensated * f.fioB * f.fioBShare)
  {
    var charge := f.fioB * f.fioBShare;
    assert f.Price() == f.tariff - charge;
    assert f.compensated * f.Price() == f.compensated * f.tariff - f.compensated * charge;
    assert f.Purchased() * f.tariff == f.gridDemand * f.tariff - f.compensated * f.tariff;
    assert total * f.tariff == f.selfConsumed * f.tariff + f.gridDemand * f.tariff;
  }

  /** The net flow of a month subtracts the cost of the energy bought from
      savings that already leave that energy out: relative to the bills with
      and without the installation, the purchase is counted twice. */
  lemma NetFlowCountsPurchaseTwice(p: Params, month: nat)
    requires month >= 1
    ensures var f := FlowsAt(p, month);
      f.NetFlow() == p.consumption * f.tariff
                      - (f.GridCost() + f.compensated * f.fioB * f.fioBShare)
                      - f.installment - f.maintenance - f.GridCost()
  {
    SavingsAgainstBill(p, month);
  }
}
