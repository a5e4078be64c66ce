/** Properties of the table `simular_solar` returns: its shape, the order
    of its rows and its Acumulado column. */
module TableFacts {
  import opened Numeric
  import opened Simulation
  import opened MonthFacts

  /** Entry `i - 1` of the first `k` records is the record of month `i`. */
  lemma {:induction false} RecordsUpToIndex(p: Params, k: nat, i: nat)
    requires 1 <= i <= k
    ensures RecordsUpTo(p, k)[i - 1] == RecordAt(p, i)
    decreases k
  {
    if i < k {
      RecordsUpToIndex(p, k - 1, i);
    }
  }

  /** The first `i` of the first `k` records are the first `i` records. */
  lemma {:induction false} RecordsUpToPrefix(p: Params, k: nat, i: nat)
    requires i <= k
    ensures RecordsUpTo(p, k)[..i] == RecordsUpTo(p, i)
    decreases k
  {
    if i < k {
      RecordsUpToPrefix(p, k - 1, i);
      assert RecordsUpTo(p, k)[..k - 1] == RecordsUpTo(p, k - 1);
    }
  }

  /** The record of month `month` is numbered `month`, falls in contract
      year `(month - 1) / 12` and in month 1 to 12 of it. */
  lemma RecordCalendar(p: Params, month: nat)
    requires month >= 1
    ensures var r := RecordAt(p, month);
      r.month == month && r.year == p.startYear + (month - 1) / 12
      && 1 <= r.monthOfYear <= 12 && (r.year - p.startYear) * 12 + r.monthOfYear == month
  {
    Calendar(p, month);
  }

  /** A run of at least one year yields one row per month, in month order:
      row `i` is the record of month `i + 1`. A run of no years fails. */
  lemma TableShape(p: Params)
    ensures Table(p).Success? <==> p.years >= 1
    ensures Table(p).Success? ==>
      var rows := Table(p).value;
      |rows| == 12 * p.years
      && forall i :: 0 <= i < |rows| ==>
           rows[i].record == RecordAt(p, i + 1) && rows[i].record.month == i + 1
           && rows[i].record.year == p.startYear + i / 12
           && 1 <= rows[i].record.monthOfYear <= 12
  {
    if p.years >= 1 {
      var records := RecordsUpTo(p, MonthCount(p));
      var rows := Table(p).value;
      forall i | 0 <= i < |rows|
        ensures rows[i].record == RecordAt(p, i + 1) && rows[i].record.month == i + 1
          && rows[i].record.year == p.startYear + i / 12
          && 1 <= rows[i].record.monthOfYear <= 12
      {
        RecordsUpToIndex(p, MonthCount(p), i + 1);
        RecordCalendar(p, i + 1);
      }
    }
  }

  lemma NetFlowsPrefix(rs: seq<MonthRecord>, i: nat)
    requires i <= |rs|
    ensures NetFlows(rs)[..i] == NetFlows(rs[..i])
  {
  }

  lemma NetFlowsAppend(rs: seq<MonthRecord>, r: MonthRecord)
    ensures NetFlows(rs + [r]) == NetFlows(rs) + [r.netFlow]
  {
  }

  /** The unrounded net flow of the first `k` months. */
  function ExactNetTotal(p: Params, k: nat): real {
    if k == 0 then 0.0 else ExactNetTotal(p, k - 1) + FlowsAt(p, k).NetFlow()
  }

  /** The sum of the first `k` rounded net flows. */
  function RoundedNetTotal(p: Params, k: nat): real {
    Sum(NetFlows(RecordsUpTo(p, k)))
  }

  /** Each net flow is rounded to the cent before it is summed, so after `k`
      months the running total is at most half a cent per month away from
      the unrounded total. */
  lemma {:induction false} RoundingDrift(p: Params, k: nat)
    ensures -0.005 * k as real <= RoundedNetTotal(p, k) - ExactNetTotal(p, k) <= 0.005 * k as real
  {
    if k > 0 {
      RoundingDrift(p, k - 1);
      NetFlowsAppend(RecordsUpTo(p, k - 1), RecordAt(p, k));
      SumAppend(NetFlows(RecordsUpTo(p, k - 1)), RecordAt(p, k).netFlow);
      assert RecordAt(p, k).netFlow == Round2(FlowsAt(p, k).NetFlow());
    }
  }

  /** The Acumulado column of a run of at least one year: row `i` holds the
      sum of the rounded net flows of months 1 to `i + 1`, within half a
      cent per month of the unrounded sum, and the last row holds the sum
      of the whole net flow column. */
  lemma CumulativeColumn(p: Params)
    requires p.years >= 1
    ensures var rows := Table(p).value;
      (forall i :: 0 <= i < |rows| ==>
         rows[i].cumulative == RoundedNetTotal(p, i + 1)
         && -0.005 * (i + 1) as real <= rows[i].cumulative - ExactNetTotal(p, i + 1)
                                     <= 0.005 * (i + 1) as real)
      && rows[|rows| - 1].cumulative == Sum(NetFlows(RecordsUpTo(p, MonthCount(p))))
  {
    var records := RecordsUpTo(p, MonthCount(p));
    var rows := Table(p).value;
    var xs := NetFlows(records);
    CumulativeSumIsPrefixSum(xs);
    forall i | 0 <= i < |rows|
      ensures rows[i].cumulative == RoundedNetTotal(p, i + 1)
         && -0.005 * (i + 1) as real <= rows[i].cumulative - ExactNetTotal(p, i + 1)
                                     <= 0.005 * (i + 1) as real
    {
      NetFlowsPrefix(records, i + 1);
      RecordsUpToPrefix(p, MonthCount(p), i + 1);
      RoundingDrift(p, i + 1);
    }
  }

  /** The records behind the rows of a table. */
  function Records(rows: seq<Row>): (rs: seq<MonthRecord>)
    ensures |rs| == |rows|
  {
    seq(|rows|, i requires 0 <= i < |rows| => rows[i].record)
  }

  /** Adding the cumulative column keeps the records as they are. */
  lemma RecordsOfRows(rs: seq<MonthRecord>)
    ensures Records(WithCumulative(rs)) == rs
  {
    var rows := WithCumulative(rs);
    forall i | 0 <= i < |rs|
      ensures Records(rows)[i] == rs[i]
    {
    }
  }

  /** The Parcela (R$) column of a list of records. */
  function Installments(rs: seq<MonthRecord>): (xs: seq<real>)
    ensures |xs| == |rs|
  {
    seq(|rs|, i requires 0 <= i < |rs| => rs[i].installment)
  }

  lemma InstallmentsAppend(rs: seq<MonthRecord>, r: MonthRecord)
    ensures Installments(rs + [r]) == Installments(rs) + [r.installment]
  {
  }

  lemma {:induction false} InstallmentsUpTo(p: Params, k: nat)
    ensures Sum(Installments(RecordsUpTo(p, k))) == InstallmentsTotal(p, k)
  {
    if k > 0 {
      InstallmentsUpTo(p, k - 1);
      InstallmentsAppend(RecordsUpTo(p, k - 1), RecordAt(p, k));
      SumAppend(Installments(RecordsUpTo(p, k - 1)), RecordAt(p, k).installment);
      ChargesCarried(p, k);
    }
  }

  /** The records behind the rows of a run's table are the month records. */
  lemma TableRecords(p: Params)
    requires p.years >= 1
    ensures Records(Table(p).value) == RecordsUpTo(p, MonthCount(p))
  {
    RecordsOfRows(RecordsUpTo(p, MonthCount(p)));
  }

  /** The Parcela column of a run sums to the installments charged over
      its months, which `InstallmentsPaid` puts at one installment per
      month inside the financing term. */
  lemma InstallmentColumn(p: Params)
    requires p.years >= 1
    ensures Sum(Installments(Records(Table(p).value))) == InstallmentsTotal(p, MonthCount(p))
  {
    TableRecords(p);
    InstallmentsUpTo(p, MonthCount(p));
  }
}
