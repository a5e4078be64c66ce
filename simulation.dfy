/** The monthly simulation of a residential solar installation: one forward
    pass over `years * 12` months that escalates the tariff once a year,
    carries a net-metering credit balance from month to month and emits one
    record per month, followed by the running total of the net cash flow. */
module Simulation {
  import opened Numeric
  import opened Tables
  import opened CreditLedger

  /** The parameters of one run, in the order of the signature of
      `simular_solar` in `main.py`. */
  datatype Params = Params(
    initialTariff: real,         // tarifa_inicial, R$/kWh
    initialFioB: real,           // fio_b_inicial, R$/kWh
    meanGeneration: real,        // geracao_mensal_media, kWh per month
    consumption: real,           // consumo_mensal, kWh per month
    selfConsumptionShare: real,  // perc_autoconsumo, 0..1
    installment: real,           // valor_parcela, R$ per month
    financingMonths: int,        // meses_financiamento
    years: int,                  // anos_simulacao
    annualAdjustment: real,      // reajuste_anual
    annualMaintenance: real,     // custo_manutencao_anual, R$ per year
    annualDegradation: real,     // degradacao_anual
    startYear: int,              // ano_inicial
    seasonality: bool)           // usar_sazonalidade

  /** The defaults of the function signature. */
  const DefaultParams := Params(0.973, 0.69568, 1346.64, 1237.17, 0.20, 750.0,
                                72, 10, 0.10, 750.0, 0.005, 2026, true)

  /** Everything one month computes, before rounding: the quantities it
      settles and, as members, the amounts it derives from them. */
  datatype MonthFlows = MonthFlows(
    month: int, year: int, monthOfYear: int,
    tariff: real, fioB: real, fioBShare: real,
    generation: real, selfConsumed: real, gridDemand: real,
    injected: real, compensated: real, balance: real,
    installment: real, maintenance: real)
  {
    /** kWh bought from the grid: the demand the credits did not cover. */
    function Purchased(): real {
      gridDemand - compensated
    }

    /** The value of one compensated kWh (preco_credito). */
    function Price(): real {
      tariff - fioB * fioBShare
    }

    /** Economia: self-consumption at the full tariff plus the compensated
        energy at the credit price. */
    function Savings(): real {
      selfConsumed * tariff + compensated * Price()
    }

    /** Compra rede: the purchased energy at the full tariff. */
    function GridCost(): real {
      Purchased() * tariff
    }

    /** Fluxo líquido: savings less installment, maintenance and grid cost. */
    function NetFlow(): real {
      Savings() - installment - maintenance - GridCost()
    }
  }

  /** One row of the month list, as `simular_solar` appends it (the rounded
      columns; the "MM/YYYY" label is represented by its two numbers). */
  datatype MonthRecord = MonthRecord(
    month: int,          // Mês
    year: int,           // Ano
    monthOfYear: int,    // the month of Mês/Ano
    generation: real,    // Geração (kWh)
    consumption: real,   // Consumo (kWh)
    balance: real,       // Saldo créditos (kWh)
    tariff: real,        // Tarifa (R$/kWh)
    creditPrice: real,   // Preço crédito (R$/kWh)
    savings: real,       // Economia (R$)
    gridCost: real,      // Compra rede (R$)
    installment: real,   // Parcela (R$)
    maintenance: real,   // Manutenção (R$)
    netFlow: real)       // Fluxo líquido (R$)

  /** A row of the final table: a month record and its Acumulado (R$). */
  datatype Row = Row(record: MonthRecord, cumulative: real)

  /** pandas raises when the Acumulado column is computed over a table with
      no rows, which has no columns at all. */
  datatype SimError = EmptyTable

  datatype Result<T> = Success(value: T) | Failure(error: SimError)

  /** The tariff and the Fio B fee, both in R$/kWh. */
  datatype Tariffs = Tariffs(tariff: real, fioB: real)

  function MonthCount(p: Params): int {
    p.years * 12
  }

  /** Tariff and Fio B grow by the annual adjustment at the first month of
      every year after the first. */
  function Escalate(p: Params, month: int, t: Tariffs): Tariffs {
    if month > 1 && (month - 1) % 12 == 0 then
      Tariffs(t.tariff * (1.0 + p.annualAdjustment), t.fioB * (1.0 + p.annualAdjustment))
    else t
  }

  /** The tariffs in force in month `k` (for `k == 0`, the initial ones). */
  function TariffsIn(p: Params, k: nat): Tariffs {
    if k == 0 then Tariffs(p.initialTariff, p.initialFioB)
    else Escalate(p, k, TariffsIn(p, k - 1))
  }

  /** Generation of month `month`: the mean degraded once per whole year
      elapsed, times the month's seasonal factor when seasonality is on. */
  function Generation(p: Params, month: int): real
    requires month >= 1
  {
    var base := p.meanGeneration * Pow(1.0 - p.annualDegradation, (month - 1) / 12);
    if p.seasonality then base * SeasonalFactor((month - 1) % 12 + 1) else base
  }

  /** The part of the monthly consumption met directly by generation. */
  function SelfConsumed(p: Params): real {
    p.consumption * p.selfConsumptionShare
  }

  /** The part of the monthly consumption drawn from the grid. */
  function GridDemand(p: Params): real {
    p.consumption - SelfConsumed(p)
  }

  /** The surplus of month `month` injected into the grid. */
  function InjectedIn(p: Params, month: int): real
    requires month >= 1
  {
    Injected(Generation(p, month), SelfConsumed(p))
  }

  /** The installment of month `month`: paid through the financing term. */
  function InstallmentAt(p: Params, month: int): real {
    if month <= p.financingMonths then p.installment else 0.0
  }

  /** The accounting of month `month`, given the tariffs already escalated
      for it and the month's settlement of the credit ledger. */
  function Account(p: Params, month: int, tariff: real, fioB: real, settled: Settlement): MonthFlows
    requires month >= 1
  {
    var year := p.startYear + (month - 1) / 12;
    MonthFlows(month, year, (month - 1) % 12 + 1, tariff, fioB, FioBShare(year),
               Generation(p, month), SelfConsumed(p), GridDemand(p), InjectedIn(p, month),
               settled.compensated, settled.balance, InstallmentAt(p, month),
               p.annualMaintenance / 12.0)
  }

  /** The credit balance (kWh) left after `k` months. */
  function BalanceAfter(p: Params, k: nat): real
    decreases k, 1
  {
    if k == 0 then 0.0 else SettlementIn(p, k).balance
  }

  /** The ledger of month `month`: the previous balance credited with the
      month's surplus and drawn on for its grid demand. */
  function SettlementIn(p: Params, month: nat): Settlement
    requires month >= 1
    decreases month, 0
  {
    Settle(BalanceAfter(p, month - 1), InjectedIn(p, month), GridDemand(p))
  }

  /** The accounting of month `month` of the run: the tariffs in force that
      month and the month's settlement of the balance the previous month
      left. */
  function FlowsAt(p: Params, month: nat): MonthFlows
    requires month >= 1
  {
    var t := TariffsIn(p, month);
    Account(p, month, t.tariff, t.fioB, SettlementIn(p, month))
  }

  /** The rounded record `simular_solar` appends for these flows. */
  function Format(p: Params, f: MonthFlows): MonthRecord {
    MonthRecord(f.month, f.year, f.monthOfYear, Round2(f.generation),
                Round2(p.consumption), Round2(f.balance), Round3(f.tariff),
                Round3(f.Price()), Round2(f.Savings()), Round2(f.GridCost()),
                f.installment, Round2(f.maintenance), Round2(f.NetFlow()))
  }

  function RecordAt(p: Params, month: nat): MonthRecord
    requires month >= 1
  {
    Format(p, FlowsAt(p, month))
  }

  /** The records of months 1..k. */
  function RecordsUpTo(p: Params, k: nat): (rs: seq<MonthRecord>)
    ensures |rs| == k
  {
    if k == 0 then [] else RecordsUpTo(p, k - 1) + [RecordAt(p, k)]
  }

  function NetFlows(rs: seq<MonthRecord>): (xs: seq<real>)
    ensures |xs| == |rs|
  {
    seq(|rs|, i requires 0 <= i < |rs| => rs[i].netFlow)
  }

  /** The final table: each record with the cumulative sum of the (rounded)
      net flow column. */
  function WithCumulative(rs: seq<MonthRecord>): (rows: seq<Row>)
    ensures |rows| == |rs|
  {
    var c := CumulativeSum(NetFlows(rs));
    seq(|rs|, i requires 0 <= i < |rs| => Row(rs[i], c[i]))
  }

  /** The whole run as a function of its parameters. */
  function Table(p: Params): Result<seq<Row>> {
    if MonthCount(p) < 1 then Failure(EmptyTable)
    else Success(WithCumulative(RecordsUpTo(p, MonthCount(p))))
  }

  /** The balance a month's accounting leaves is the one the fold carries
      into the next month. */
  lemma BalanceCarried(p: Params, month: nat)
    requires month >= 1
    ensures FlowsAt(p, month).balance == BalanceAfter(p, month)
  {
    assert FlowsAt(p, month).balance == SettlementIn(p, month).balance;
  }

  /** A month's accounting reports the month's generation, its split of
      consumption and its ledger. */
  lemma EnergyCarried(p: Params, month: nat)
    requires month >= 1
    ensures var f := FlowsAt(p, month);
      f.generation == Generation(p, month) && f.selfConsumed == SelfConsumed(p)
      && f.gridDemand == GridDemand(p) && f.injected == InjectedIn(p, month)
      && f.compensated == SettlementIn(p, month).compensated
      && f.Purchased() == GridDemand(p) - SettlementIn(p, month).compensated
  {
  }

  /** A month's accounting charges the month's installment and a twelfth
      of the annual maintenance. */
  lemma ChargesCarried(p: Params, month: nat)
    requires month >= 1
    ensures FlowsAt(p, month).installment == InstallmentAt(p, month)
    ensures FlowsAt(p, month).maintenance == p.annualMaintenance / 12.0
  {
  }

  /** The month loop of `simular_solar`: escalates the tariff and the Fio B
      fee in place at each year boundary, carries the credit balance from
      month to month and appends one record per month. */
  method MonthlyRecords(p: Params) returns (records: seq<MonthRecord>)
    ensures records == RecordsUpTo(p, if MonthCount(p) >= 0 then MonthCount(p) else 0)
  {
    var tariff := p.initialTariff;
    var fioB := p.initialFioB;
    var balance := 0.0;
    records := [];
    var total := p.years * 12;
    var month := 1;
    while month <= total
      invariant 1 <= month <= if total >= 0 then total + 1 else 1
      invariant Tariffs(tariff, fioB) == TariffsIn(p, month - 1)
      invariant balance == BalanceAfter(p, month - 1)
      invariant records == RecordsUpTo(p, month - 1)
    {
      tariff, fioB := EscalateAtYearStart(p, month, tariff, fioB);
      var compensated, closing := CreditThenConsume(balance, InjectedIn(p, month), GridDemand(p));
      var flows := Account(p, month, tariff, fioB, Settlement(compensated, closing));
      balance := closing;
      records := records + [Format(p, flows)];
      month := month + 1;
    }
  }

  /** The annual adjustment applied in place: at the first month of every
      year after the first, the tariff and the Fio B fee both grow by the
      adjustment; in every other month they are left as they are. */
  method EscalateAtYearStart(p: Params, month: int, tariff: real, fioB: real)
    returns (newTariff: real, newFioB: real)
    ensures Tariffs(newTariff, newFioB) == Escalate(p, month, Tariffs(tariff, fioB))
  {
    var growth := 1.0 + p.annualAdjustment;
    if month > 1 && (month - 1) % 12 == 0 {
      newTariff := tariff * growth;
      newFioB := fioB * growth;
    } else {
      newTariff, newFioB := tariff, fioB;
    }
  }

  /** `simular_solar`: the month records, then the cumulative column over
      them; a run of no months fails as pandas does. */
  method SimulateSolar(p: Params) returns (result: Result<seq<Row>>)
    ensures result == Table(p)
    ensures result.Success? <==> p.years >= 1
    ensures result.Success? ==> |result.value| == 12 * p.years
  {
    var records := MonthlyRecords(p);
    if records == [] {
      return Failure(EmptyTable);
    }
    result := Success(WithCumulative(records));
  }
}
