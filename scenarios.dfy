/** Two runs in which the energy balances exactly every month: generation
    equals consumption, the tariff is 1 R$/kWh without Fio B fee, and there
    is no escalation, degradation, seasonality, installment or maintenance.
    Whether the energy is self-consumed or banked and compensated, every
    month is fully offset. */
module Scenarios {
  import opened Numeric
  import CreditLedger
  import opened Simulation
  import opened MonthFacts
  import opened TableFacts

  predicate Balanced(p: Params) {
    p.initialTariff == 1.0 && p.initialFioB == 0.0
    && p.meanGeneration == 1000.0 && p.consumption == 1000.0
    && p.annualAdjustment == 0.0 && p.annualDegradation == 0.0 && !p.seasonality
    && p.installment == 0.0 && p.annualMaintenance == 0.0
  }

  /** With all energy banked, the balance returns to zero every month. */
  lemma {:induction false} BankedBalance(p: Params, k: nat)
    requires Balanced(p) && p.selfConsumptionShare == 0.0
    ensures BalanceAfter(p, k) == 0.0
  {
    if k > 0 {
      BankedBalance(p, k - 1);
      GenerationConstant(p, k);
    }
  }

  /** With no self-consumption, each month injects 1000 kWh, compensates
      1000 kWh, buys nothing and saves and nets R$ 1000.00. */
  lemma BankedMonth(p: Params, month: nat)
    requires Balanced(p) && p.selfConsumptionShare == 0.0 && month >= 1
    ensures var f := FlowsAt(p, month);
      f.injected == 1000.0 && f.compensated == 1000.0 && f.Purchased() == 0.0
      && f.balance == 0.0 && f.Savings() == 1000.0 && f.NetFlow() == 1000.0
  {
    BankedEnergy(p, month);
    var f := FlowsAt(p, month);
    assert f.injected == 1000.0 && f.compensated == 1000.0 && f.balance == 0.0;
    assert f.selfConsumed == 0.0 && f.gridDemand == 1000.0;
    BalancedCharges(p, month);
    OffsetMonth(f);
  }

  /** The energy of a banked month: all 1000 kWh injected, all of the
      1000 kWh demand compensated, nothing left on the balance. */
  lemma BankedEnergy(p: Params, month: nat)
    requires Balanced(p) && p.selfConsumptionShare == 0.0 && month >= 1
    ensures SelfConsumed(p) == 0.0 && GridDemand(p) == 1000.0 && InjectedIn(p, month) == 1000.0
    ensures SettlementIn(p, month) == CreditLedger.Settlement(1000.0, 0.0)
  {
    BankedBalance(p, month - 1);
    GenerationConstant(p, month);
  }

  /** With all consumption self-supplied, nothing is injected, the balance
      stays at zero, the savings are the whole consumption at the tariff and
      the net flow is the same R$ 1000.00. */
  lemma {:induction false} SelfSuppliedBalance(p: Params, k: nat)
    requires Balanced(p) && p.selfConsumptionShare == 1.0
    ensures BalanceAfter(p, k) == 0.0
  {
    if k > 0 {
      SelfSuppliedBalance(p, k - 1);
      GenerationConstant(p, k);
    }
  }

  lemma SelfSuppliedMonth(p: Params, month: nat)
    requires Balanced(p) && p.selfConsumptionShare == 1.0 && month >= 1
    ensures var f := FlowsAt(p, month);
      f.injected == 0.0 && f.compensated == 0.0 && f.Purchased() == 0.0
      && f.balance == 0.0 && f.Savings() == 1000.0 * f.tariff && f.NetFlow() == 1000.0
  {
    SelfSuppliedEnergy(p, month);
    var f := FlowsAt(p, month);
    assert f.injected == 0.0 && f.compensated == 0.0 && f.balance == 0.0;
    assert f.selfConsumed == 1000.0 && f.gridDemand == 0.0;
    BalancedCharges(p, month);
    OffsetMonth(f);
  }

  /** The energy of a self-supplied month: all 1000 kWh consumed on site,
      nothing demanded from the grid, injected or banked. */
  lemma SelfSuppliedEnergy(p: Params, month: nat)
    requires Balanced(p) && p.selfConsumptionShare == 1.0 && month >= 1
    ensures SelfConsumed(p) == 1000.0 && GridDemand(p) == 0.0 && InjectedIn(p, month) == 0.0
    ensures SettlementIn(p, month) == CreditLedger.Settlement(0.0, 0.0)
  {
    SelfSuppliedBalance(p, month - 1);
    GenerationConstant(p, month);
  }

  /** In both runs every month is charged at tariff 1 with no Fio B fee,
      installment or maintenance. */
  lemma BalancedCharges(p: Params, month: nat)
    requires Balanced(p) && month >= 1
    ensures var f := FlowsAt(p, month);
      f.tariff == 1.0 && f.fioB == 0.0 && f.installment == 0.0 && f.maintenance == 0.0
  {
    TariffsConstant(p, month);
  }

  /** A month that buys nothing, pays no Fio B, installment or maintenance
      nets exactly its savings: the energy it covers at the tariff. */
  lemma OffsetMonth(f: MonthFlows)
    requires f.Purchased() == 0.0 && f.fioB == 0.0
    requires f.installment == 0.0 && f.maintenance == 0.0
    ensures f.Savings() == (f.selfConsumed + f.compensated) * f.tariff
    ensures f.tariff == 1.0 ==> f.Savings() == f.selfConsumed + f.compensated
    ensures f.NetFlow() == f.Savings()
  {
  }

  /** In both runs the Acumulado of month `m` is R$ 1000.00 times `m`. */
  lemma {:induction false} BalancedTotals(p: Params, k: nat)
    requires Balanced(p) && (p.selfConsumptionShare == 0.0 || p.selfConsumptionShare == 1.0)
    ensures RoundedNetTotal(p, k) == 1000.0 * k as real
  {
    if k > 0 {
      BalancedTotals(p, k - 1);
      if p.selfConsumptionShare == 0.0 {
        BankedMonth(p, k);
      } else {
        SelfSuppliedMonth(p, k);
      }
      assert Round2(1000.0) == 1000.0;
      NetFlowsAppend(RecordsUpTo(p, k - 1), RecordAt(p, k));
      SumAppend(NetFlows(RecordsUpTo(p, k - 1)), RecordAt(p, k).netFlow);
    }
  }

  lemma BalancedCumulative(p: Params)
    requires Balanced(p) && (p.selfConsumptionShare == 0.0 || p.selfConsumptionShare == 1.0)
    requires p.years >= 1
    ensures var rows := Table(p).value;
      forall i :: 0 <= i < |rows| ==> rows[i].cumulative == 1000.0 * (i + 1) as real
  {
    CumulativeColumn(p);
    var rows := Table(p).value;
    forall i | 0 <= i < |rows|
      ensures rows[i].cumulative == 1000.0 * (i + 1) as real
    {
      BalancedTotals(p, i + 1);
    }
  }
}
