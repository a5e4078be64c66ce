# Residential solar payback simulator — verified model

This project models `simular_solar` in `main.py`. It is the monthly engine of a
simulator that projects the cash flow of a financed residential solar
installation in Brazil. One forward pass runs over `anos_simulacao * 12` months
and builds one record per month. The pass carries three pieces of state:

- the energy tariff and the Fio B (wire-usage) fee, both escalated by the annual
  adjustment at the first month of every year after the first;
- a net-metering credit balance in kWh, credited with each month's injected
  surplus and then drawn on to compensate that month's grid consumption;
- the list of month records. After the loop, pandas adds the `Acumulado (R$)`
  column as the running total of the rounded net flow.

Every month also uses two fixed tables:

- the share of the Fio B fee charged on compensated credits by calendar year,
  under Lei 14.300/2022. The share is 60%, 75% and 90% in 2026–2028 and 100% in
  every other year;
- the Florianópolis seasonality factor by month of the year.

The payback rule of the report (`exibir_resultados`) is modelled as well. It
only selects a month: the month after the last month whose running total is
negative.

## Layout

| file | module | what it holds |
|---|---|---|
| `numeric.dfy` | `Numeric` | `min`, `max`, `**` with a natural exponent, `round(x, 2)` / `round(x, 3)` on exact reals, sums and pandas' `cumsum` |
| `tables.dfy` | `Tables` | the Fio B phase-in table and the seasonality table |
| `ledger.dfy` | `CreditLedger` | injected surplus and the monthly credit/consume step of the ledger |
| `simulation.dfy` | `Simulation` | parameters, the month accounting as a fold over the month index (the specification), the loop method `MonthlyRecords` and `SimulateSolar` |
| `months.dfy` | `MonthFacts` | lemmas on one month and on the first `k` months: escalation, calendar, generation, ledger, energy, installments, money |
| `table.dfy` | `TableFacts` | lemmas on the returned table: row count and order, the `Acumulado` column |
| `payback.dfy` | `Payback` | the payback selection rule and what each verdict means |
| `scenarios.dfy` | `Scenarios` | two runs in which energy balances exactly every month |

The loop in `Simulation.MonthlyRecords` updates the tariff, the Fio B fee and the
credit balance in place. It does this through `EscalateAtYearStart` and
`CreditLedger.CreditThenConsume`, and appends one record per month, built from
the compensation and closing balance that the ledger step just computed. Its loop
invariants tie these variables after month `k` to the fold `TariffsIn`,
`BalanceAfter` and `RecordsUpTo`. Every property is then proved about the fold.

## Modelling decisions

- Amounts are exact `real`s. Binary floating point is not modelled.
- `round(x, n)` is modelled as exact rounding to `n` decimals with ties to even.
  This is Python's rule applied to the exact value. `Acumulado` is the running
  total of the rounded `Fluxo líquido`, as in `main.py:137-141`.
  `TableFacts.RoundingDrift` bounds its distance from the unrounded total.
- A month's accounting (`Simulation.MonthFlows`) stores the quantities the loop
  settles. The amounts derived from them (credit price, purchase, savings,
  grid cost and net flow, `main.py:90-122`) are member functions of it,
  written as the loop computes them.
- `(mes - 1) // 12` and `(mes - 1) % 12` only apply to `mes >= 1`. There, Python's
  floor division and Dafny's Euclidean division agree.
- A run with `anos_simulacao <= 0` produces no records. `pd.DataFrame([])` then has
  no columns, so computing `Acumulado` raises. This is modelled as
  `Failure(EmptyTable)`.
- `valor_parcela` is a fixed monthly installment, paid in months 1 to
  `meses_financiamento`. `main.py` has no amortization formula and no down
  payment, so neither is modelled.
- `simular_solar` validates no parameter: it accepts any values, and the model
  does too. Properties that need sane inputs (shares in [0, 1], non-negative
  consumption) take them as lemma preconditions.
- The signature defaults to `usar_sazonalidade=True` (`main.py:17`,
  `Simulation.DefaultParams`).

Two facts proved about the code as written are worth knowing:

- `MonthFacts.NetFlowCountsPurchaseTwice`: `economia` already leaves out the energy
  bought from the grid, and the net flow subtracts its cost once more.
- `Tables.SeasonalYearTotal`: the twelve seasonality factors add up to 11.90, not
  12. With seasonality on, a year yields 11.90/12 of the generation of the same
  year without seasonality.

## Model

| member | source | states |
|---|---|---|
| Simulation.SimulateSolar | main.py:4-143 | the returned table is the fold `Table(p)`; it exists exactly when `anos_simulacao >= 1` and then has `12 * anos_simulacao` rows |
| Simulation.MonthlyRecords | main.py:62-138 | the loop with tariff, Fio B and credit balance updated in place yields exactly the records of months 1..n of the fold (no records for n <= 0) |
| Simulation.EscalateAtYearStart | main.py:73-76 | tariff and Fio B are multiplied by `1 + reajuste_anual` exactly when `mes > 1` and `(mes - 1) % 12 == 0`, otherwise unchanged |
| CreditLedger.CreditThenConsume | main.py:100-105 | crediting the surplus and then subtracting the compensated energy in place gives the settlement `Settle` |
| CreditLedger.Settle | main.py:101-108 | compensated plus closing balance equals opening balance plus injected; closing balance is `max(0, opening + injected - demand)`; compensation never exceeds demand and falls short only when the balance is exhausted |
| CreditLedger.Injected | main.py:97-98 | injected energy is never negative and is either 0 or generation minus self-consumption |
| Tables.FioBShare | main.py:38-41 | share 0.60, 0.75, 0.90 for 2026, 2027, 2028; below 1.0 exactly for 2026–2028, so 1.00 for every other year (the `.get(ano, 1.00)` default of line 88); always in [0.60, 1.0] |
| Tables.FioBPhaseInMonotone | main.py:38-41 | from 2026 on, the charged share never decreases |
| Tables.SeasonalFactor | main.py:46-59 | each factor lies in [0.70, 1.25]; the minimum is June only, the maximum January and December only; above 1.0 exactly for Jan–Mar and Oct–Dec |
| Tables.SeasonalYearTotal | main.py:46-59 | the twelve factors add up to 11.90 |
| Numeric.Round2 | main.py:128-137 | the result is a whole number of hundredths, at most 0.005 from the input, and even in the last digit on a tie |
| Numeric.Round3 | main.py:131-132 | the result is a whole number of thousandths, at most 0.0005 from the input, and even in the last digit on a tie |
| Numeric.CumulativeSumIsPrefixSum | main.py:141 | entry k of `cumsum` is the sum of the first k+1 values, and the last entry is the sum of all values |
| MonthFacts.FlowsBill | main.py:90-122 | for the money columns of any month (`preco_credito = tarifa - fio_b * share`, `economia = auto*tarifa + compensada*preco`, `custo_rede = comprada*tarifa`) whose self-consumption and grid demand make up the consumption, savings are the consumption at the tariff less the purchase at the tariff and the Fio B charge on compensated credits |
| MonthFacts.TariffSchedule | main.py:65-76 | the tariff in month m is `tarifa_inicial * (1 + reajuste)^((m-1) div 12)`; month 1 keeps the initial tariff |
| MonthFacts.FioBSchedule | main.py:65-76 | the Fio B fee in month m is `fio_b_inicial * (1 + reajuste)^((m-1) div 12)` |
| MonthFacts.TariffsConstant | main.py:73-76 | with no adjustment, tariff and Fio B stay at their initial values in every month |
| MonthFacts.TariffNonDecreasing | main.py:73-76 | with a non-negative adjustment and initial tariff, the tariff never decreases from one month to a later one |
| MonthFacts.FioBNonDecreasing | main.py:73-76 | likewise for the Fio B fee |
| MonthFacts.TariffsFixedWithinYear | main.py:73-76 | two months of the same contract year use the same tariff and Fio B fee |
| MonthFacts.Calendar | main.py:68-71 | month m has `Mês = m`, `Ano = ano_inicial + (m-1) div 12` and a month of the year in 1..12 that recombines to m |
| MonthFacts.CreditPriceSchedule | main.py:73-91 | the credit price a month's record is rounded from, `tarifa - fio_b * share(ano)`, is `(tarifa_inicial - fio_b_inicial * share(ano)) * (1 + reajuste)^((m-1) div 12)` |
| MonthFacts.GenerationConstant | main.py:79-85 | with no degradation and seasonality off, every month generates exactly `geracao_mensal_media` |
| MonthFacts.GenerationYearOnYear | main.py:79-85 | the same month one year later generates `(1 - degradacao_anual)` times as much |
| MonthFacts.GenerationBounds | main.py:79-85 | for degradation in [0, 1] and a non-negative mean, generation is non-negative and at most the mean (times 1.25 with seasonality) |
| MonthFacts.BalanceNonNegative | main.py:62-105 | the credit balance is never negative after any number of months |
| MonthFacts.LedgerStep | main.py:98-105 | closing balance = opening balance + injected - compensated, with injected >= 0 and `>= geracao - auto_consumo`, compensation <= grid demand, and a shortfall only when the balance reaches 0 |
| MonthFacts.LedgerTotals | main.py:62-105 | the balance after k months is all energy injected minus all energy compensated, so credits never compensate more than was injected |
| MonthFacts.ConsumptionSplit | main.py:94-95 | for a share in [0, 1] and consumption >= 0, self-consumption and grid demand are non-negative, add up to the consumption, and demand is `consumo * (1 - share)` |
| MonthFacts.EnergyConservation | main.py:94-108 | compensated plus purchased energy equals the grid demand, both are non-negative, and with self-consumption they add up to the whole consumption |
| MonthFacts.InstallmentsPaid | main.py:119 | over the first k months the installments total `valor_parcela * min(k, meses_financiamento)` (0 for a negative term) |
| TableFacts.InstallmentColumn | main.py:118-119 | the `Parcela` column of a run's table sums to the installments charged over its `12 * anos_simulacao` months, which `InstallmentsPaid` puts at `valor_parcela * min(12 * anos, meses_financiamento)` |
| MonthFacts.SavingsAgainstBill | main.py:110-116 | savings equal the bill without the installation minus the bill with it: purchase at the tariff plus the Fio B share charged on compensated credits |
| MonthFacts.NetFlowCountsPurchaseTwice | main.py:113-122 | the net flow subtracts the grid purchase cost from savings that already exclude it |
| TableFacts.RecordCalendar | main.py:124-127 | the record of month m carries `Mês = m`, `Ano = ano_inicial + (m-1) div 12` and a month of the year in 1..12 |
| TableFacts.TableShape | main.py:68-140 | a table exists exactly for `anos_simulacao >= 1`, with `12 * anos_simulacao` rows; row i is the record of month i+1, in order |
| TableFacts.RoundingDrift | main.py:137-141 | the sum of the first k rounded net flows is within 0.005 * k of the unrounded sum |
| TableFacts.CumulativeColumn | main.py:141 | `Acumulado` of row i is the sum of the rounded net flows of months 1..i+1, within half a cent per month of the exact sum; the last row holds the total of the net flow column |
| Payback.LastNegative | main.py:214-216 | the index returned holds a negative value and every later one is non-negative; none is returned exactly when no value is negative |
| Payback.PaybackMeaning | main.py:193-222 | no analysis when the run does not outlast the term; "immediate" exactly when the final total is positive and no total is negative; "not reached" exactly when the final total is not positive; otherwise the payback month m has a negative total at month m-1, non-negative totals from m on, and `m = 12 * years + rest` |
| Payback.RunPaybackAnalysed | main.py:193 | a run's payback is analysed exactly when it lasts more than `meses_financiamento` months |
| Payback.DefaultRun | main.py:4-18 | the run with the signature's defaults has seasonality on, yields 120 rows and, outlasting the 72-month term, is analysed for payback |
| Scenarios.OffsetMonth | main.py:110-122 | a month that buys nothing and pays no Fio B fee, installment or maintenance nets exactly its savings, the energy it covers at the tariff |
| Scenarios.BankedMonth | main.py:94-122 | 1000 kWh generated and consumed at tariff 1 with no self-consumption: 1000 kWh injected and compensated, nothing bought, balance 0, savings and net flow 1000 in every month |
| Scenarios.SelfSuppliedMonth | main.py:94-122 | the same with full self-consumption: nothing injected or compensated, balance 0, savings `1000 * tarifa` and net flow 1000 |
| Scenarios.BalancedCumulative | main.py:141 | in both runs, `Acumulado` at month m is 1000 * m |

## Left out

- pandas: building the DataFrame, display options, and the `sum`, `mean`, `min`
  and `idxmin` summaries of the report (`main.py:155-200`). These are library
  calls. The table is a `seq` of rows.
- Console printing and CSV export in `exibir_resultados` (`main.py:157-231`), and
  the argparse command line (`main.py:234-308`). These are I/O. Of the report,
  only the payback selection rule is modelled.
- `app.py` (the Streamlit page). It adds no logic beyond calling `simular_solar`.
- The `"%02d/%d"` month label (`main.py:127`). It is kept as its two numbers,
  month of the year and year.
- Numeric.Round2: binary floating point is not modelled. The exact value is
  rounded, so a value such as 2.675, which is not representable as a float,
  rounds as the exact decimal does, not as Python's float does. The same holds
  for Numeric.Round3 and for every other amount, which are exact reals.
- Loan amortization, a down payment and parameter validation: `main.py` has
  none of them.
