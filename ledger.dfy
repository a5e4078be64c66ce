/** The net-metering credit ledger: one balance in kWh, credited with the
    month's injected surplus and then drawn on to compensate grid demand. */
module CreditLedger {
  import opened Numeric

  /** Energy injected into the grid in a month: generation left over after
      self-consumption, never negative. */
  function Injected(generation: real, selfConsumed: real): (r: real)
    ensures r >= 0.0 && r >= generation - selfConsumed
    ensures r == 0.0 || r == generation - selfConsumed
  {
    Max(0.0, generation - selfConsumed)
  }

  datatype Settlement = Settlement(compensated: real, balance: real)

  /** One month of the ledger: credit `injected`, then compensate as much of
      `demand` as the credited balance allows. */
  function Settle(balance: real, injected: real, demand: real): (s: Settlement)
    ensures s.compensated + s.balance == balance + injected
    ensures s.balance == Max(0.0, balance + injected - demand)
    ensures s.compensated <= demand
    ensures s.compensated == demand || s.balance == 0.0
    ensures 0.0 <= balance + injected && 0.0 <= demand ==> 0.0 <= s.compensated
  {
    var credited := balance + injected;
    var compensated := Min(demand, credited);
    Settlement(compensated, credited - compensated)
  }

  /** The ledger updated in place, as the month loop does it: the balance
      is first credited with the surplus, then the compensated energy is
      taken out of it. */
  method CreditThenConsume(balance: real, injected: real, demand: real)
    returns (compensated: real, closing: real)
    ensures Settlement(compensated, closing) == Settle(balance, injected, demand)
  {
    closing := balance + injected;
    compensated := Min(demand, closing);
    closing := closing - compensated;
  }
}
