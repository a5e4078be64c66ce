/** The two fixed lookup tables of the simulator. */
module Tables {

  /** Share of the Fio B (wire-usage) fee charged against compensated
      credits, by calendar year, under Brazilian Lei 14.300/2022. */
  const FioBShareTable: map<int, real> :=
    map[2026 := 0.60, 2027 := 0.75, 2028 := 0.90,
        2029 := 1.00, 2030 := 1.00, 2031 := 1.00]

  /** The table lookup with 1.00 for any year that is not in the table,
      years before 2026 included. */
  function FioBShare(year: int): (r: real)
    ensures year == 2026 ==> r == 0.60
    ensures year == 2027 ==> r == 0.75
    ensures year == 2028 ==> r == 0.90
    ensures r < 1.0 <==> 2026 <= year <= 2028
    ensures 0.60 <= r <= 1.0
  {
    if year in FioBShareTable then FioBShareTable[year] else 1.0
  }

  /** From 2026 on, the charged share never goes down. */
  lemma FioBPhaseInMonotone(y1: int, y2: int)
    requires 2026 <= y1 <= y2
    ensures FioBShare(y1) <= FioBShare(y2)
  {
  }

  /** Generation multiplier by month of the year (1 = January) for
      Florianópolis, relative to the annual mean. */
  const SeasonalProfile: map<int, real> :=
    map[1 := 1.25, 2 := 1.20, 3 := 1.10, 4 := 0.90, 5 := 0.75, 6 := 0.70,
        7 := 0.75, 8 := 0.85, 9 := 0.95, 10 := 1.05, 11 := 1.15, 12 := 1.25]

  function SeasonalFactor(monthOfYear: int): (r: real)
    requires 1 <= monthOfYear <= 12
    ensures 0.70 <= r <= 1.25
    ensures r == 0.70 <==> monthOfYear == 6
    ensures r == 1.25 <==> monthOfYear == 1 || monthOfYear == 12
    ensures r > 1.0 <==> monthOfYear in {1, 2, 3, 10, 11, 12}
  {
    SeasonalProfile[monthOfYear]
  }

  /** The twelve factors add up to 11.90, not 12: with seasonality on, a year
      yields 11.90/12 of the generation of a year without it. */
  lemma SeasonalYearTotal()
    ensures SeasonalFactor(1) + SeasonalFactor(2) + SeasonalFactor(3)
          + SeasonalFactor(4) + SeasonalFactor(5) + SeasonalFactor(6)
          + SeasonalFactor(7) + SeasonalFactor(8) + SeasonalFactor(9)
          + SeasonalFactor(10) + SeasonalFactor(11) + SeasonalFactor(12) == 11.90
  {
  }
}
