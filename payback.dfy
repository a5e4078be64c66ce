/** The payback rule of the result report: the month after the last month
    whose running total (Acumulado) is negative, reported only when the run
    outlasts the financing term and ends in the black. */
module Payback {
  import opened Simulation
  import TableFacts

  datatype Option<T> = None | Some(value: T)

  /** The index of the last negative entry, if any. */
  function LastNegative(xs: seq<real>): (r: Option<nat>)
    ensures r.Some? ==> r.value < |xs| && xs[r.value] < 0.0
                        && forall k :: r.value < k < |xs| ==> xs[k] >= 0.0
    ensures r.None? <==> forall k :: 0 <= k < |xs| ==> xs[k] >= 0.0
  {
    if xs == [] then None
    else if xs[|xs| - 1] < 0.0 then Some(|xs| - 1)
    else LastNegative(xs[..|xs| - 1])
  }

  /** What the report says about payback. */
  datatype Verdict =
    | NotAnalysed                                      // the run ends within the financing term
    | Immediate                                        // the running total is never negative
    | AtMonth(month: int, years: int, restMonths: int) // Mês of payback, split as `//` and `%` by 12
    | NotReached(finalTotal: real)                     // the final running total is not positive

  /** The payback verdict for the running totals `cumulative` (entry `i`
      belonging to Mês `i + 1`) of a run financed over `financingMonths`. */
  function PaybackOf(cumulative: seq<real>, financingMonths: int): Verdict
    requires |cumulative| > 0
  {
    if |cumulative| <= financingMonths then NotAnalysed
    else
      var final := cumulative[|cumulative| - 1];
      if final > 0.0 then
        match LastNegative(cumulative)
        case None => Immediate
        case Some(j) =>
          var month := (j + 1) + 1;
          AtMonth(month, month / 12, month % 12)
      else NotReached(final)
  }

  /** What each verdict means. The payback month is the first month from
      which the running total is never negative again, the month before it
      is negative, and it falls within the run; the split into years and
      months recombines to it. */
  lemma PaybackMeaning(cumulative: seq<real>, financingMonths: int)
    requires |cumulative| > 0
    ensures var v := PaybackOf(cumulative, financingMonths);
      var n := |cumulative|;
      (v.NotAnalysed? <==> n <= financingMonths)
      && (v.Immediate? <==>
            (n > financingMonths && cumulative[n - 1] > 0.0
             && forall i :: 0 <= i < n ==> cumulative[i] >= 0.0))
      && (v.NotReached? <==> n > financingMonths && cumulative[n - 1] <= 0.0)
      && (v.NotReached? ==> v.finalTotal == cumulative[n - 1])
      && (v.AtMonth? ==>
            2 <= v.month <= n && cumulative[v.month - 2] < 0.0
            && (forall i :: v.month - 1 <= i < n ==> cumulative[i] >= 0.0)
            && v.years * 12 + v.restMonths == v.month && 0 <= v.restMonths < 12)
  {
    var n := |cumulative|;
    if n > financingMonths && cumulative[n - 1] > 0.0 {
      var r := LastNegative(cumulative);
      if r.Some? {
        assert r.value != n - 1;
      }
    }
  }

  /** The Acumulado column of a table. */
  function Cumulatives(rows: seq<Row>): (xs: seq<real>)
    ensures |xs| == |rows|
    ensures forall i :: 0 <= i < |rows| ==> xs[i] == rows[i].cumulative
  {
    seq(|rows|, i requires 0 <= i < |rows| => rows[i].cumulative)
  }

  /** The payback verdict of a run; only runs of at least one year reach
      the report. */
  function RunPayback(p: Params): Verdict
    requires p.years >= 1
  {
    PaybackOf(Cumulatives(Table(p).value), p.financingMonths)
  }

  /** A run is analysed for payback exactly when it lasts longer than the
      financing term. */
  lemma RunPaybackAnalysed(p: Params)
    requires p.years >= 1
    ensures RunPayback(p).NotAnalysed? <==> 12 * p.years <= p.financingMonths
  {
    TableFacts.TableShape(p);
  }

  /** The run with the signature's defaults: ten years with seasonality on
      give 120 rows, which outlast the 72-month financing term, so its
      payback is analysed. */
  lemma DefaultRun()
    ensures DefaultParams.seasonality
    ensures Table(DefaultParams).Success? && |Table(DefaultParams).value| == 120
    ensures !RunPayback(DefaultParams).NotAnalysed?
  {
    TableFacts.TableShape(DefaultParams);
    RunPaybackAnalysed(DefaultParams);
  }
}
